/**
 * The genre browser (src/pages/Genres.jsx): the genre list of the chosen
 * category sorted by title count, and the navigation a click triggers.
 */
module Genres {
  import opened Results
  import opened JsValues
  import opened Catalog
  import opened Api
  import opened Sorting

  datatype Genre = Genre(malId: int, name: string, count: int)

  datatype GenresPage = GenresPage(genres: seq<Genre>, loading: bool, filter: string)

  const Initial: GenresPage := GenresPage([], true, "genres")

  function Count(g: Genre): int { g.count }

  /** `getAnimeGenres({ filter })`: the category is the only parameter. */
  function FetchParams(filter: string): (p: Obj)
    ensures Get(p, "filter") == Str(filter)
    ensures forall k :: k != "filter" ==> Get(p, k) == Undefined
  {
    map["filter" := Str(filter)]
  }

  /** The genre query is the category alone, or nothing when it is empty. */
  lemma FetchQuery(filter: string)
    ensures GenresQuery(FetchParams(filter)) == if filter != "" then [("filter", filter)] else []
  {
    TopCharactersAndGenresParams(FetchParams(filter));
  }

  /**
   * A settled `loadGenres`: the response's genres (none when `data` is
   * missing) sorted by count, largest first; a failure keeps the list.
   */
  function Loaded(s: GenresPage, outcome: Result<Page<Genre>>): (t: GenresPage)
    ensures outcome.Success? ==> multiset(t.genres) == multiset(Items(outcome.value))
    ensures outcome.Success? ==> NonIncreasing(Count, t.genres)
    ensures outcome.Failure? ==> t.genres == s.genres
    ensures !t.loading && t.filter == s.filter
  {
    match outcome
    case Success(p) => s.(genres := SortDesc(Count, Items(p)), loading := false)
    case Failure(_) => s.(loading := false)
  }

  /** The sort is stable: genres with the same count keep the response's order. */
  lemma LoadedTiesKeepOrder(s: GenresPage, p: Page<Genre>, k: int)
    ensures WithKey(Count, Loaded(s, Success(p)).genres, k) == WithKey(Count, Items(p), k)
  {
    SortStable(Count, Items(p), k);
  }

  /** A response without `data` leaves an empty list, not the previous one. */
  lemma MissingDataEmpties(s: GenresPage, pagination: Option<Pagination>)
    ensures Loaded(s, Success(Page(None, pagination))).genres == []
  {
  }

  /** The effect on `[filter]`: another category reloads, the same one does not. */
  function SetFilter(s: GenresPage, filter: string): (r: (GenresPage, bool))
    ensures r.0.filter == filter && (r.1 <==> filter != s.filter)
    ensures r.0.genres == s.genres
  {
    if filter == s.filter then (s, false) else (s.(filter := filter, loading := true), true)
  }

  /** The router state a click sends to `/home`. */
  datatype NavState = NavState(genreId: int, genreName: string)

  /** `handleGenreClick`: exactly the clicked genre's id and name, nothing else. */
  function GenreClick(g: Genre): (n: NavState)
    ensures n.genreId == g.malId && n.genreName == g.name
  {
    NavState(g.malId, g.name)
  }
}
