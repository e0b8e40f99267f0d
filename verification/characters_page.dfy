/**
 * The character browser (src/pages/Characters.jsx): the top-characters
 * grid, text and letter search, "load more" into whichever list is shown,
 * and the sort direction switch.
 */
module CharactersPage {
  import opened Results
  import opened Text
  import opened JsValues
  import opened Catalog
  import opened Api
  import opened CharacterData

  datatype CharPage = CharPage(
    characters: seq<Character>,
    loading: bool,
    searchQuery: string,
    searchResults: seq<Character>,
    isSearching: bool,
    selectedLetter: string,
    orderBy: string,
    sortDirection: string,
    currentPage: int,
    hasNextPage: bool,
    loadingMore: bool)

  const Initial: CharPage := CharPage([], true, "", [], false, "", "favorites", "desc", 1, false, false)

  /** `displayCharacters`: the search results while searching, the top list otherwise. */
  function Display(s: CharPage): (list: seq<Character>)
    ensures s.isSearching ==> list == s.searchResults
    ensures !s.isSearching ==> list == s.characters
  {
    if s.isSearching then s.searchResults else s.characters
  }

  // ---------------------------------------------------------------------------
  // Top characters
  // ---------------------------------------------------------------------------

  /**
   * `loadTopCharacters`: back to page 1; on success the response (or an
   * empty list) and its `has_next_page` (or false); a failure keeps both.
   */
  function LoadTop(s: CharPage, outcome: Result<Page<Character>>): (t: CharPage)
    ensures t.currentPage == 1 && !t.loading
    ensures outcome.Success? ==> t.characters == Items(outcome.value) && t.hasNextPage == HasNext(outcome.value)
    ensures outcome.Failure? ==> t.characters == s.characters && t.hasNextPage == s.hasNextPage
    ensures t.searchResults == s.searchResults && t.isSearching == s.isSearching
  {
    var s' := s.(currentPage := 1);
    match outcome
    case Success(p) => s'.(characters := Items(p), hasNextPage := HasNext(p), loading := false)
    case Failure(_) => s'.(loading := false)
  }

  /** `getTopCharacters({ limit: 24 })`. */
  const TopParams: Obj := map["limit" := Num(24)]

  /** The top list asks for 24 characters and no page. */
  lemma TopQuery()
    ensures Lookup(TopCharactersQuery(TopParams), "limit") == Some("24")
    ensures Lookup(TopCharactersQuery(TopParams), "page") == None
  {
    SmallNumerals();
    TopCharactersAndGenresParams(TopParams);
  }

  // ---------------------------------------------------------------------------
  // Search
  // ---------------------------------------------------------------------------

  /** The guard of `handleSearch`: a blank query with no letter does nothing unless forced. */
  predicate SearchRuns(s: CharPage, reset: bool)
  {
    !IsBlank(s.searchQuery) || s.selectedLetter != "" || reset
  }

  /** The search parameters: 24 per page, the sort, the page, and the letter only when one is selected. */
  function SearchParams(s: CharPage, pageNum: int): (p: Obj)
    ensures Get(p, "limit") == Num(24) && Get(p, "page") == Num(pageNum)
    ensures Get(p, "order_by") == Str(s.orderBy) && Get(p, "sort") == Str(s.sortDirection)
    ensures Get(p, "letter") == (if s.selectedLetter != "" then Str(s.selectedLetter) else Undefined)
  {
    var p := map["limit" := Num(24), "page" := Num(pageNum), "order_by" := Str(s.orderBy),
                 "sort" := Str(s.sortDirection)];
    if s.selectedLetter != "" then p["letter" := Str(s.selectedLetter)] else p
  }

  /**
   * What a character search sends: the text as typed when non-empty, the
   * letter exactly when one is selected, the sort, and 24 per page.
   */
  lemma SearchQuery(s: CharPage, pageNum: int)
    ensures var q := CharacterSearchQuery(s.searchQuery, SearchParams(s, pageNum));
            Lookup(q, "q") == (if s.searchQuery != "" then Some(s.searchQuery) else None) &&
            Lookup(q, "letter") == (if s.selectedLetter != "" then Some(s.selectedLetter) else None) &&
            Lookup(q, "limit") == Some("24") &&
            Lookup(q, "order_by") == (if s.orderBy != "" then Some(s.orderBy) else None) &&
            Lookup(q, "page") == (if pageNum != 0 then Some(IntToString(pageNum)) else None)
  {
    SmallNumerals();
    CharacterSearchParams(s.searchQuery, SearchParams(s, pageNum));
  }

  /**
   * The request `handleSearch(e, reset)` sends when its guard lets it
   * through: the typed text and the current filters, for page 1 when
   * forced and otherwise for the current page (`reset ? 1 : currentPage`).
   */
  function SearchRequest(s: CharPage, reset: bool): (q: Option<Query>)
    ensures q.None? <==> !SearchRuns(s, reset)
    ensures q.Some? ==>
              Lookup(q.value, "page") ==
                (if reset then Some("1") else if s.currentPage != 0 then Some(IntToString(s.currentPage)) else None) &&
              Lookup(q.value, "q") == (if s.searchQuery != "" then Some(s.searchQuery) else None) &&
              Lookup(q.value, "letter") == (if s.selectedLetter != "" then Some(s.selectedLetter) else None)
  {
    if !SearchRuns(s, reset) then None
    else
      var pageNum := if reset then 1 else s.currentPage;
      SmallNumerals();
      SearchQuery(s, pageNum);
      Some(CharacterSearchQuery(s.searchQuery, SearchParams(s, pageNum)))
  }

  /**
   * `handleSearch(e, reset)`, with the request it sends: when the guard
   * lets it through, the search view opens, a forced search goes back to
   * page 1, and the response replaces the search results (it never
   * appends, even for a page other than the first); a failure keeps them.
   */
  function HandleSearch(s: CharPage, reset: bool, outcome: Result<Page<Character>>): (r: (CharPage, Option<Query>))
    ensures r.1 == SearchRequest(s, reset)
    ensures var t := r.0;
            && (!SearchRuns(s, reset) ==> t == s)
            && (SearchRuns(s, reset) ==> t.isSearching && !t.loading)
            && (SearchRuns(s, reset) && reset ==> t.currentPage == 1)
            && (!reset ==> t.currentPage == s.currentPage)
            && (SearchRuns(s, reset) && outcome.Success? ==>
                  t.searchResults == Items(outcome.value) && t.hasNextPage == HasNext(outcome.value))
            && (outcome.Failure? ==> t.searchResults == s.searchResults && t.hasNextPage == s.hasNextPage)
            && t.characters == s.characters
  {
    if !SearchRuns(s, reset) then (s, None)
    else
      var s' := s.(currentPage := if reset then 1 else s.currentPage, isSearching := true);
      var t := match outcome
        case Success(p) => s'.(searchResults := Items(p), hasNextPage := HasNext(p), loading := false)
        case Failure(_) => s'.(loading := false);
      (t, SearchRequest(s, reset))
  }

  /**
   * A plain submit after some load-mores asks for the current page of the
   * new query, not its first, and the response replaces the search results
   * while the page counter stays where it was.
   */
  lemma PlainSubmitKeepsPage(s: CharPage, p: Page<Character>)
    requires s.currentPage > 1 && SearchRuns(s, false)
    ensures Lookup(SearchRequest(s, false).value, "page") == Some(IntToString(s.currentPage))
    ensures HandleSearch(s, false, Success(p)).1 == SearchRequest(s, false)
    ensures HandleSearch(s, false, Success(p)).0.searchResults == Items(p)
    ensures HandleSearch(s, false, Success(p)).0.currentPage == s.currentPage
  {
  }

  // ---------------------------------------------------------------------------
  // Load more
  // ---------------------------------------------------------------------------

  /**
   * `loadMoreCharacters`: the next page is appended to the list on screen
   * and only then does the page counter move; a failure changes nothing
   * but the loading flag.
   */
  function LoadMore(s: CharPage, outcome: Result<Page<Character>>): (t: CharPage)
    ensures outcome.Success? ==> t.currentPage == s.currentPage + 1 && t.hasNextPage == HasNext(outcome.value)
    ensures outcome.Failure? ==> t == s.(loadingMore := false)
    ensures !t.loadingMore && t.isSearching == s.isSearching
  {
    match outcome
    case Success(p) =>
      var s' := if s.isSearching then s.(searchResults := s.searchResults + Items(p))
                else s.(characters := s.characters + Items(p));
      s'.(currentPage := s.currentPage + 1, hasNextPage := HasNext(p), loadingMore := false)
    case Failure(_) => s.(loadingMore := false)
  }

  /**
   * Load-more extends exactly the list on screen: the shown list gains the
   * response's characters at its end, the hidden list is untouched.
   */
  lemma LoadMoreExtendsDisplay(s: CharPage, p: Page<Character>)
    ensures Display(LoadMore(s, Success(p))) == Display(s) + Items(p)
    ensures s.isSearching ==> LoadMore(s, Success(p)).characters == s.characters
    ensures !s.isSearching ==> LoadMore(s, Success(p)).searchResults == s.searchResults
  {
  }

  /**
   * Load-more asks the character search for the page after the current
   * one, with the text in the search box and the letter, whichever list is
   * on screen: on the top list that text may be typed but never submitted.
   */
  lemma LoadMoreQuery(s: CharPage)
    requires s.currentPage >= 0
    ensures var q := CharacterSearchQuery(s.searchQuery, SearchParams(s, s.currentPage + 1));
            Lookup(q, "page") == Some(IntToString(s.currentPage + 1)) &&
            Lookup(q, "q") == (if s.searchQuery != "" then Some(s.searchQuery) else None) &&
            Lookup(q, "letter") == (if s.selectedLetter != "" then Some(s.selectedLetter) else None)
  {
    SearchQuery(s, s.currentPage + 1);
  }

  // ---------------------------------------------------------------------------
  // Letters, clearing and sorting
  // ---------------------------------------------------------------------------

  /** `searchCharacters('', { letter, limit: 24, order_by, sort })`: no text and no page. */
  function LetterParams(s: CharPage, letter: string): (p: Obj)
    ensures Get(p, "letter") == Str(letter) && Get(p, "limit") == Num(24) && Get(p, "page") == Undefined
  {
    map["letter" := Str(letter), "limit" := Num(24), "order_by" := Str(s.orderBy), "sort" := Str(s.sortDirection)]
  }

  /** A letter click sends the letter with no text and no page. */
  lemma LetterQuery(s: CharPage, letter: string)
    requires letter != ""
    ensures var q := CharacterSearchQuery("", LetterParams(s, letter));
            Lookup(q, "letter") == Some(letter) && Lookup(q, "q") == None && Lookup(q, "page") == None &&
            Lookup(q, "limit") == Some("24")
  {
    SmallNumerals();
    CharacterSearchParams("", LetterParams(s, letter));
  }

  /**
   * `handleLetterClick`: the letter is selected, the text cleared, the
   * search view opened at page 1, and the response replaces the search
   * results (a failure keeps them).
   */
  function LetterClick(s: CharPage, letter: string, outcome: Result<Page<Character>>): (t: CharPage)
    ensures t.selectedLetter == letter && t.searchQuery == "" && t.isSearching && t.currentPage == 1 && !t.loading
    ensures outcome.Success? ==> t.searchResults == Items(outcome.value) && t.hasNextPage == HasNext(outcome.value)
    ensures outcome.Failure? ==> t.searchResults == s.searchResults && t.hasNextPage == s.hasNextPage
    ensures t.characters == s.characters
  {
    var s' := s.(selectedLetter := letter, searchQuery := "", isSearching := true, currentPage := 1);
    match outcome
    case Success(p) => s'.(searchResults := Items(p), hasNextPage := HasNext(p), loading := false)
    case Failure(_) => s'.(loading := false)
  }

  /**
   * `clearSearch`: search view closed, text and letter cleared, page 1, and
   * the top list reloaded.
   */
  function ClearSearch(s: CharPage, outcome: Result<Page<Character>>): (t: CharPage)
    ensures !t.isSearching && t.searchQuery == "" && t.selectedLetter == "" && t.currentPage == 1
    ensures outcome.Success? ==> Display(t) == Items(outcome.value)
    ensures outcome.Failure? ==> Display(t) == s.characters
  {
    LoadTop(s.(isSearching := false, searchQuery := "", selectedLetter := ""), outcome)
  }

  /** After clearing, a plain search with a blank query does nothing. */
  lemma ClearedSearchIsInert(s: CharPage, outcome: Result<Page<Character>>, again: Result<Page<Character>>)
    ensures var t := ClearSearch(s, outcome);
            HandleSearch(t, false, again) == (t, None)
  {
    assert IsBlank("");
  }

  /** The sort button: "asc" becomes "desc", anything else becomes "asc". */
  function ToggleSort(direction: string): (d: string)
    ensures d == "asc" || d == "desc"
    ensures d != direction
  {
    if direction == "asc" then "desc" else "asc"
  }

  /** On the two directions the page uses, toggling twice is the identity. */
  lemma ToggleSortInvolution(direction: string)
    requires direction == "asc" || direction == "desc"
    ensures ToggleSort(ToggleSort(direction)) == direction
  {
  }

  /**
   * Choosing a sort key: the same key again re-runs nothing; a different
   * one re-runs the effect on `[orderBy, sortDirection]` like `FlipSort`.
   */
  function SetOrderBy(s: CharPage, orderBy: string, outcome: Result<Page<Character>>): (t: CharPage)
    ensures orderBy == s.orderBy ==> t == s
    ensures orderBy != s.orderBy ==> t.orderBy == orderBy && t.currentPage == 1
    ensures orderBy != s.orderBy && outcome.Success? ==> Display(t) == Items(outcome.value)
    ensures outcome.Failure? ==> Display(t) == Display(s)
  {
    if orderBy == s.orderBy then s
    else
      var s' := s.(orderBy := orderBy);
      if s'.isSearching then HandleSearch(s', true, outcome).0 else LoadTop(s', outcome)
  }

  /**
   * Flipping the sort direction always re-runs the effect on `[orderBy,
   * sortDirection]`: a forced search from page 1 while searching, otherwise
   * a top-list reload (which ignores the direction).
   */
  function FlipSort(s: CharPage, outcome: Result<Page<Character>>): (t: CharPage)
    ensures t.sortDirection == ToggleSort(s.sortDirection)
    ensures t.currentPage == 1
    ensures s.isSearching && outcome.Success? ==> Display(t) == Items(outcome.value)
    ensures !s.isSearching && outcome.Success? ==> Display(t) == Items(outcome.value)
    ensures outcome.Failure? ==> Display(t) == Display(s)
  {
    var s' := s.(sortDirection := ToggleSort(s.sortDirection));
    if s'.isSearching then HandleSearch(s', true, outcome).0 else LoadTop(s', outcome)
  }
}
