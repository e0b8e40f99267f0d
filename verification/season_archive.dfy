/**
 * The season archive page (src/pages/SeasonArchive.jsx): the year/season
 * directory built from `/seasons`, the fallback when that request fails,
 * the rule that keeps the selected season available for the selected year,
 * and the paged grid of the selected season, which is emptied when a
 * replacing fetch fails.
 */
module SeasonArchive {
  import opened Results
  import opened Text
  import opened JsValues
  import opened Seqs
  import opened Catalog
  import opened Api
  import opened Listing

  /** One element of the `/seasons` response. */
  datatype SeasonEntry = SeasonEntry(year: int, seasons: seq<string>)

  /** `seasonMap`: year to the seasons listed for it. */
  type Directory = map<int, seq<string>>

  /** `list.map(item => item.year)`: the years in response order, duplicates included. */
  function Years(list: seq<SeasonEntry>): (ys: seq<int>)
    ensures |ys| == |list|
    ensures forall i :: 0 <= i < |list| ==> ys[i] == list[i].year
  {
    Map((e: SeasonEntry) => e.year, list)
  }

  /** `list.forEach(item => { map[item.year] = item.seasons; })`. */
  function BuildDirectory(list: seq<SeasonEntry>): Directory
  {
    if list == [] then map[]
    else BuildDirectory(list[..|list| - 1])[list[|list| - 1].year := list[|list| - 1].seasons]
  }

  /**
   * The directory has exactly the listed years, and a year listed more
   * than once maps to the seasons of its last occurrence.
   */
  lemma {:induction false} DirectoryLastWins(list: seq<SeasonEntry>)
    ensures forall y :: y in BuildDirectory(list) <==> exists i :: 0 <= i < |list| && list[i].year == y
    ensures forall i :: 0 <= i < |list| && (forall j :: i < j < |list| ==> list[j].year != list[i].year) ==>
              BuildDirectory(list)[list[i].year] == list[i].seasons
    decreases |list|
  {
    if list != [] {
      var init := list[..|list| - 1];
      var last := list[|list| - 1];
      DirectoryLastWins(init);
      forall y ensures y in BuildDirectory(list) <==> exists i :: 0 <= i < |list| && list[i].year == y {
        if y in BuildDirectory(init) {
          var i :| 0 <= i < |init| && init[i].year == y;
          assert list[i] == init[i];
        }
        if exists i :: 0 <= i < |list| && list[i].year == y {
          var i :| 0 <= i < |list| && list[i].year == y;
          if i < |init| {
            assert init[i] == list[i];
          }
        }
      }
      forall i | 0 <= i < |list| && (forall j :: i < j < |list| ==> list[j].year != list[i].year)
        ensures BuildDirectory(list)[list[i].year] == list[i].seasons
      {
        if i < |init| {
          assert init[i] == list[i];
          assert forall j :: i < j < |init| ==> init[j] == list[j];
        }
      }
    }
  }

  /** The seasons offered when the directory request fails. */
  const DefaultSeasons: seq<string> := ["winter", "spring", "summer", "fall"]

  /** `Array.from({ length: 50 }, (_, i) => currentYear - i)`. */
  function FallbackYears(currentYear: int): (ys: seq<int>)
    ensures |ys| == 50
    ensures forall i :: 0 <= i < |ys| ==> ys[i] == currentYear - i
  {
    seq(50, i => currentYear - i)
  }

  /** The fallback years run from the current year down, one year apart, with no repeats. */
  lemma FallbackYearsDescending(currentYear: int)
    ensures FallbackYears(currentYear)[0] == currentYear
    ensures FallbackYears(currentYear)[49] == currentYear - 49
    ensures forall i, j :: 0 <= i < j < 50 ==> FallbackYears(currentYear)[i] > FallbackYears(currentYear)[j]
    ensures forall y :: y in FallbackYears(currentYear) <==> currentYear - 49 <= y <= currentYear
  {
    var ys := FallbackYears(currentYear);
    forall y | currentYear - 49 <= y <= currentYear ensures y in ys {
      assert ys[currentYear - y] == y;
    }
  }

  /** The effect's dependency list `[year, season, filter, sfw, continuing]`. */
  datatype Selection = Selection(year: int, season: Option<string>, filters: Filters)

  /** The selection with its grid, and the year and season menus with the directory behind them. */
  datatype Archive = Archive(grid: Grid<Selection>, years: seq<int>, seasons: seq<string>, directory: Directory)

  /** The page on first render, in the given year. */
  function Initial(currentYear: int): Archive
  {
    Archive(Grid(Selection(currentYear, Some("winter"), Filters("", true, Some(false))), Listing.Empty), [], [], map[])
  }

  /**
   * The season the directory leaves selected: the current one when the
   * year is unknown or lists it, otherwise the year's first season
   * (`undefined` when that list is empty).
   */
  function FallbackSeason(directory: Directory, year: int, season: Option<string>): (s: Option<string>)
    ensures year !in directory ==> s == season
    ensures year in directory && season.Some? && season.value in directory[year] ==> s == season
    ensures year in directory && directory[year] != [] ==> s.Some? && s.value in directory[year]
    ensures year in directory && directory[year] == [] ==> s.None?
  {
    if year !in directory then season
    else if season.Some? && season.value in directory[year] then season
    else if directory[year] == [] then None
    else Some(directory[year][0])
  }

  /**
   * The effect on `[year, seasonMap]`, also run at the end of
   * `loadSeasonsList`: a year in the directory shows its seasons and has
   * the selection moved onto one of them. Moving the season re-runs the
   * grid's effect on `[year, season, …]`, which asks for page 1 afresh.
   */
  function ApplyDirectory(a: Archive): (r: (Archive, Option<Request>))
    ensures var sel := a.grid.sel;
            && (sel.year !in a.directory ==> r == (a, None))
            && (sel.year in a.directory ==> r.0.seasons == a.directory[sel.year])
            && r.0.grid.sel == sel.(season := FallbackSeason(a.directory, sel.year, sel.season))
    ensures r.1.Some? <==> FallbackSeason(a.directory, a.grid.sel.year, a.grid.sel.season) != a.grid.sel.season
    ensures r.1.Some? ==> r.1 == Some(Request(1, true)) && r.0.grid.feed.page == 1 && r.0.grid.feed.loading
    ensures r.1.None? ==> r.0.grid.feed == a.grid.feed
    ensures r.0.grid.feed.items == a.grid.feed.items
    ensures r.0.directory == a.directory && r.0.years == a.years
  {
    var sel := a.grid.sel;
    if sel.year in a.directory then
      var (g, req) := Select(a.grid, sel.(season := FallbackSeason(a.directory, sel.year, sel.season)));
      (a.(seasons := a.directory[sel.year], grid := g), req)
    else (a, None)
  }

  /** Running the fallback a second time changes nothing and asks for nothing. */
  lemma ApplyDirectoryIdempotent(a: Archive)
    ensures ApplyDirectory(ApplyDirectory(a).0) == (ApplyDirectory(a).0, None)
  {
  }

  /**
   * `loadSeasonsList`: on success the year list and the directory come from
   * the response (missing `data` is an empty list) and the fallback runs,
   * with the page-1 fetch it causes when it moves the season; on failure
   * fifty years back from the current one and the four seasons are
   * offered, the directory stays empty, and nothing is fetched.
   */
  function LoadSeasonsList(a: Archive, outcome: Result<Page<SeasonEntry>>, currentYear: int): (r: (Archive, Option<Request>))
    ensures outcome.Success? ==> r.0.years == Years(Items(outcome.value))
    ensures outcome.Success? ==> r.0.directory == BuildDirectory(Items(outcome.value))
    ensures outcome.Failure? ==> r == (a.(years := FallbackYears(currentYear), seasons := DefaultSeasons), None)
    ensures r.1.None? ==> r.0.grid.feed == a.grid.feed
    ensures r.1.Some? ==> r.1 == Some(Request(1, true)) && r.0.grid.feed.page == 1
    ensures r.0.grid.feed.items == a.grid.feed.items
  {
    match outcome
    case Success(p) =>
      ApplyDirectory(a.(years := Years(Items(p)), directory := BuildDirectory(Items(p))))
    case Failure(_) =>
      (a.(years := FallbackYears(currentYear), seasons := DefaultSeasons), None)
  }

  /**
   * After a successful directory load, a year the directory lists with at
   * least one season always has one of those seasons selected.
   */
  lemma SelectedSeasonIsListed(a: Archive, p: Page<SeasonEntry>, currentYear: int)
    requires a.grid.sel.year in BuildDirectory(Items(p)) && BuildDirectory(Items(p))[a.grid.sel.year] != []
    ensures var b := LoadSeasonsList(a, Success(p), currentYear).0;
            b.grid.sel.season.Some? && b.grid.sel.season.value in b.seasons
  {
  }

  /**
   * When the loaded directory does not list the selected season for the
   * selected year, the season moves and the grid is fetched again from
   * page 1 for it; when it does, nothing is fetched. An unset season on a
   * year listing no seasons stays unset, and nothing is fetched either.
   */
  lemma MovedSeasonRefetches(a: Archive, p: Page<SeasonEntry>, currentYear: int)
    requires a.grid.sel.year in BuildDirectory(Items(p))
    ensures var d := BuildDirectory(Items(p));
            var r := LoadSeasonsList(a, Success(p), currentYear);
            (r.1 == Some(Request(1, true)) <==>
               if a.grid.sel.season.Some? then a.grid.sel.season.value !in d[a.grid.sel.year] else d[a.grid.sel.year] != []) &&
            r.0.grid.sel.season == FallbackSeason(d, a.grid.sel.year, a.grid.sel.season)
  {
    var d := BuildDirectory(Items(p));
    var season := a.grid.sel.season;
    if !(season.Some? && season.value in d[a.grid.sel.year]) {
      if d[a.grid.sel.year] != [] {
        assert FallbackSeason(d, a.grid.sel.year, season) == Some(d[a.grid.sel.year][0]);
      }
    }
  }

  /**
   * Opening the archive in 1917, which the service lists with spring only:
   * the selection moves from winter to spring and spring's first page is
   * asked for.
   */
  lemma SpringOnlyYear()
    ensures var p := Page(Some([SeasonEntry(1917, ["spring"])]), None);
            var r := LoadSeasonsList(Initial(1917), Success(p), 1917);
            r.0.grid.sel.season == Some("spring") && r.1 == Some(Request(1, true))
  {
    var list := [SeasonEntry(1917, ["spring"])];
    assert BuildDirectory(list) == map[1917 := ["spring"]] by {
      assert list[..0] == [];
    }
    assert "winter" != "spring";
    assert "winter" !in ["spring"];
  }

  /** The request `getSeasonalAnime(year, season, params)` makes; an unset season reads `undefined`. */
  function FetchUrl(sel: Selection, pageNum: int): string
  {
    SeasonalUrl(Num(sel.year), if sel.season.Some? then Str(sel.season.value) else Undefined, FetchParams(sel.filters, pageNum))
  }

  /** A settled `fetchSeason`: a failed replacing fetch empties the grid, a failed append keeps it. */
  function Fetched(a: Archive, req: Request, outcome: Result<Page<Anime>>): Archive
  {
    a.(grid := Listing.Fetched(a.grid, req, outcome, ClearOnFailedReset))
  }

  /**
   * Changing the selection and failing leaves an empty grid, whatever was
   * shown before; the menus and the directory are untouched.
   */
  lemma FailedSelectionEmpties(a: Archive, sel: Selection, error: string)
    requires sel != a.grid.sel
    ensures Select(a.grid, sel).1 == Some(Request(1, true))
    ensures var b := Fetched(a.(grid := Select(a.grid, sel).0), Request(1, true), Failure(error));
            b.grid.feed.items == [] && b.grid.sel == sel &&
            b.years == a.years && b.seasons == a.seasons && b.directory == a.directory
  {
    FailedSelection(a.grid, sel, error, ClearOnFailedReset);
  }

  /**
   * A failed load-more keeps the grid: only a replacing fetch empties it.
   */
  lemma FailedLoadMoreKeeps(a: Archive, error: string)
    ensures var (g, req) := LoadMore(a.grid);
            var b := Fetched(a.(grid := g), req, Failure(error));
            b.grid.feed.items == a.grid.feed.items && b.grid.feed.page == a.grid.feed.page + 1
  {
  }
}
