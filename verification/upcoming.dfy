/**
 * The upcoming-season page (src/pages/Upcoming.jsx): the shared paged grid
 * over `/seasons/upcoming`, filtered by type and `sfw` only. A failed fetch
 * never clears the grid.
 */
module Upcoming {
  import opened Results
  import opened Catalog
  import opened Api
  import opened Listing

  /**
   * The effect's dependency list `[filter, sfw]` and the grid. The page has
   * no `continuing` box, so its filters never carry one.
   */
  type UpcomingPage = Grid<Filters>

  predicate NoContinuingBox(s: UpcomingPage)
  {
    s.sel.continuing.None?
  }

  /** First render: all types, `sfw` ticked. */
  const Initial: UpcomingPage := Grid(Filters("", true, None), Listing.Empty)

  /** The type select and the `sfw` box. */
  function SetFilters(s: UpcomingPage, filter: string, sfw: bool): (r: (UpcomingPage, Option<Request>))
    ensures NoContinuingBox(r.0)
    ensures r.1.Some? <==> filter != s.sel.filter || sfw != s.sel.sfw || !NoContinuingBox(s)
  {
    Select(s, Filters(filter, sfw, None))
  }

  /** The request `getSeasonUpcoming(params)` makes. */
  function FetchUrl(f: Filters, pageNum: int): string
  {
    UpcomingSeasonUrl(FetchParams(f, pageNum))
  }

  /**
   * Upcoming's request never mentions `continuing`, and is the
   * current-season request with that box left unticked.
   */
  lemma UpcomingQuery(s: UpcomingPage, pageNum: int)
    requires NoContinuingBox(s)
    ensures Lookup(SeasonQuery(FetchParams(s.sel, pageNum)), "continuing") == None
    ensures SeasonQuery(FetchParams(s.sel, pageNum)) == SeasonQuery(FetchParams(s.sel.(continuing := Some(false)), pageNum))
  {
    FetchQuery(s.sel, pageNum);
    MissingBoxIsUnticked(s.sel, pageNum);
  }

  /** The filters never gain a `continuing` box, whatever the user does. */
  lemma BoxStaysAbsent(s: UpcomingPage, filter: string, sfw: bool, outcome: Result<Page<Anime>>)
    requires NoContinuingBox(s)
    ensures NoContinuingBox(LoadMore(s).0)
    ensures NoContinuingBox(Listing.Fetched(s, LoadMore(s).1, outcome, KeepList))
    ensures NoContinuingBox(SetFilters(s, filter, sfw).0)
  {
  }
}
