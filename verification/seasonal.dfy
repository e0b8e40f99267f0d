/**
 * The current-season page (src/pages/Seasonal.jsx): the shared paged grid
 * over `/seasons/now`, filtered by type, `sfw` and `continuing`. Unlike the
 * archive, a failed fetch never clears the grid.
 */
module Seasonal {
  import opened Results
  import opened Catalog
  import opened Api
  import opened Listing

  /** The effect's dependency list `[filter, sfw, continuing]` and the grid. */
  type SeasonalPage = Grid<Filters>

  /** First render: all types, `sfw` and `continuing` ticked. */
  const Initial: SeasonalPage := Grid(Filters("", true, Some(true)), Listing.Empty)

  /** The request `getCurrentSeason(params)` makes. */
  function FetchUrl(f: Filters, pageNum: int): string
  {
    CurrentSeasonUrl(FetchParams(f, pageNum))
  }

  /** A settled `fetchSeasonal`: a failure keeps the grid, even for a replacing fetch. */
  function Fetched(s: SeasonalPage, req: Request, outcome: Result<Page<Anime>>): SeasonalPage
  {
    Listing.Fetched(s, req, outcome, KeepList)
  }

  /**
   * After a filter change whose fetch fails, the grid still shows the
   * previous selection's entries while the page counter is back at 1.
   */
  lemma FailedSelectionKeepsStale(s: SeasonalPage, f: Filters, error: string)
    requires f != s.sel
    ensures Select(s, f).1 == Some(Request(1, true))
    ensures var t := Fetched(Select(s, f).0, Request(1, true), Failure(error));
            t.feed.items == s.feed.items && t.feed.page == 1 && t.sel == f
  {
    FailedSelection(s, f, error, KeepList);
  }
}
