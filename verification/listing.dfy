/**
 * The paged anime grid the three season pages share
 * (src/pages/SeasonArchive.jsx, src/pages/Seasonal.jsx, src/pages/Upcoming.jsx):
 * a filter change starts over at page 1 with a fetch that replaces the list,
 * "load more" advances the page before fetching and appends, and each
 * settled fetch stores the sanitised entries and the `has_next_page` flag.
 * The pages differ only in what a failed fetch does to the list.
 */
module Listing {
  import opened Results
  import opened Text
  import opened JsValues
  import opened Seqs
  import opened Catalog
  import opened Api

  datatype Feed = Feed(items: seq<Anime>, page: int, hasNextPage: bool, loading: bool)

  const Empty: Feed := Feed([], 1, false, true)

  /**
   * A season page: the filters its effect depends on, and the grid they
   * select. The archive adds the year and season to the filters.
   */
  datatype Grid<S> = Grid(sel: S, feed: Feed)

  /** `fetchX(pageNum, reset)`: the page asked for and whether the result replaces the list. */
  datatype Request = Request(page: int, reset: bool)

  /** The archive empties its list when a replacing fetch fails; the other two pages keep it. */
  datatype FailurePolicy = KeepList | ClearOnFailedReset

  /** The filter effect, also run on mount: `setPage(1); fetch(1, true)`. */
  function Refresh<S>(g: Grid<S>): (r: (Grid<S>, Request))
    ensures r.0 == g.(feed := g.feed.(page := 1, loading := true))
    ensures r.1.page == r.0.feed.page && r.1.reset
  {
    (g.(feed := g.feed.(page := 1, loading := true)), Request(1, true))
  }

  /**
   * A change to the filters. React re-runs the effect only when a
   * dependency differs, so setting the same filters again sends nothing;
   * different ones start over at page 1 with a replacing fetch, while the
   * old entries stay on screen until it settles.
   */
  function Select<S(==)>(g: Grid<S>, sel: S): (r: (Grid<S>, Option<Request>))
    ensures sel == g.sel ==> r == (g, None)
    ensures sel != g.sel ==> r.0.sel == sel && r.0.feed.page == 1 && r.1 == Some(Request(1, true))
    ensures r.0.feed.items == g.feed.items && r.0.feed.hasNextPage == g.feed.hasNextPage
  {
    if sel == g.sel then (g, None)
    else
      var (h, req) := Refresh(g.(sel := sel));
      (h, Some(req))
  }

  /** `loadMore`: the page counter moves on before the fetch, and the fetch appends. */
  function LoadMore<S>(g: Grid<S>): (r: (Grid<S>, Request))
    ensures r.0 == g.(feed := g.feed.(page := g.feed.page + 1, loading := true))
    ensures r.1.page == r.0.feed.page && !r.1.reset
  {
    (g.(feed := g.feed.(page := g.feed.page + 1, loading := true)), Request(g.feed.page + 1, false))
  }

  /**
   * A settled fetch. Success: the sanitised page replaces the list (reset)
   * or is appended to it, and `hasNextPage` follows the response. Failure:
   * `hasNextPage` and, unless the policy clears it, the list stay. Loading
   * ends either way; the page counter is not touched.
   */
  function ApplyFetch(f: Feed, req: Request, outcome: Result<Page<Anime>>, policy: FailurePolicy): (g: Feed)
    ensures !g.loading && g.page == f.page
    ensures outcome.Success? && req.reset ==> g.items == FilterValid(Items(outcome.value))
    ensures outcome.Success? && !req.reset ==>
              f.items <= g.items && g.items[|f.items|..] == FilterValid(Items(outcome.value))
    ensures outcome.Success? ==> g.hasNextPage == HasNext(outcome.value)
    ensures outcome.Failure? ==> g.hasNextPage == f.hasNextPage
    ensures outcome.Failure? && !(req.reset && policy == ClearOnFailedReset) ==> g.items == f.items
    ensures outcome.Failure? && req.reset && policy == ClearOnFailedReset ==> g.items == []
  {
    match outcome
    case Success(p) =>
      var fetched := FilterValid(Items(p));
      Feed(if req.reset then fetched else f.items + fetched, f.page, HasNext(p), false)
    case Failure(_) =>
      f.(items := if req.reset && policy == ClearOnFailedReset then [] else f.items, loading := false)
  }

  predicate AllValid(items: seq<Anime>)
  {
    forall i :: 0 <= i < |items| ==> IsValid(items[i])
  }

  /** Whatever arrives and whichever policy applies, the grid only ever holds valid entries. */
  lemma FetchKeepsValid(f: Feed, req: Request, outcome: Result<Page<Anime>>, policy: FailurePolicy)
    requires AllValid(f.items)
    ensures AllValid(ApplyFetch(f, req, outcome, policy).items)
  {
    if outcome.Success? {
      var fetched := FilterValid(Items(outcome.value));
      var g := ApplyFetch(f, req, outcome, policy);
      if !req.reset {
        assert g.items == f.items + fetched;
        forall i | 0 <= i < |g.items| ensures IsValid(g.items[i]) {
          if i >= |f.items| {
            assert g.items[i] == fetched[i - |f.items|];
          }
        }
      }
    }
  }

  /** A settled fetch of a season page: the filters stay, the grid takes the outcome. */
  function Fetched<S>(g: Grid<S>, req: Request, outcome: Result<Page<Anime>>, policy: FailurePolicy): Grid<S>
  {
    g.(feed := ApplyFetch(g.feed, req, outcome, policy))
  }

  /** Load-more moves the page forward by one even when its fetch then fails. */
  lemma LoadMoreAdvancesOnFailure<S>(g: Grid<S>, error: string, policy: FailurePolicy)
    ensures var (h, req) := LoadMore(g);
            var k := Fetched(h, req, Failure(error), policy);
            k.feed.page == g.feed.page + 1 && k.feed.items == g.feed.items &&
            k.feed.hasNextPage == g.feed.hasNextPage && !k.feed.loading && k.sel == g.sel
  {
  }

  /**
   * A changed selection whose fetch fails: the pages that keep their list
   * go on showing the previous selection's entries under page 1, the
   * archive shows nothing.
   */
  lemma FailedSelection<S>(g: Grid<S>, sel: S, error: string, policy: FailurePolicy)
    requires sel != g.sel
    ensures Select(g, sel).1 == Some(Request(1, true))
    ensures var k := Fetched(Select(g, sel).0, Request(1, true), Failure(error), policy);
            k.sel == sel && k.feed.page == 1 &&
            k.feed.items == (if policy == KeepList then g.feed.items else [])
  {
  }

  /** The concatenated entries of a run of pages. */
  function Flatten(pages: seq<Page<Anime>>): seq<Anime>
  {
    if pages == [] then [] else Flatten(pages[..|pages| - 1]) + Items(pages[|pages| - 1])
  }

  /**
   * The filter effect followed by a run of load-mores, every fetch
   * succeeding: the first page replaces the list and each later one is
   * appended.
   */
  function Scroll<S>(g: Grid<S>, first: Page<Anime>, more: seq<Page<Anime>>, policy: FailurePolicy): Grid<S>
    decreases |more|
  {
    if more == [] then
      var (h, req) := Refresh(g);
      Fetched(h, req, Success(first), policy)
    else
      var (h, req) := LoadMore(Scroll(g, first, more[..|more| - 1], policy));
      Fetched(h, req, Success(more[|more| - 1]), policy)
  }

  /**
   * Scrolling is sanitising the whole run at once: the grid holds exactly
   * the valid entries of all fetched pages, in fetch order, the page counter
   * equals the number of pages fetched, and `hasNextPage` is the last page's.
   */
  lemma {:induction false} ScrollShowsAllPages<S>(g: Grid<S>, first: Page<Anime>, more: seq<Page<Anime>>, policy: FailurePolicy)
    ensures Scroll(g, first, more, policy).feed.items == FilterValid(Items(first) + Flatten(more))
    ensures Scroll(g, first, more, policy).feed.page == 1 + |more|
    ensures Scroll(g, first, more, policy).feed.hasNextPage == HasNext(if more == [] then first else more[|more| - 1])
    ensures Scroll(g, first, more, policy).sel == g.sel
    decreases |more|
  {
    if more == [] {
      assert Items(first) + Flatten(more) == Items(first);
    } else {
      var init := more[..|more| - 1];
      var last := more[|more| - 1];
      ScrollShowsAllPages(g, first, init, policy);
      var s := Scroll(g, first, init, policy);
      FilterValidConcat(Items(first) + Flatten(init), Items(last));
      assert Flatten(more) == Flatten(init) + Items(last);
      assert Items(first) + Flatten(more) == (Items(first) + Flatten(init)) + Items(last);
      var k := Fetched(LoadMore(s).0, LoadMore(s).1, Success(last), policy);
      assert k.feed.items == s.feed.items + FilterValid(Items(last));
    }
  }

  /**
   * The filters of a season page: the type filter (empty for all types),
   * the `sfw` box and, on the pages that have one, the `continuing` box.
   */
  datatype Filters = Filters(filter: string, sfw: bool, continuing: Option<bool>)

  /**
   * The parameter object of the season pages' fetch: `page`, `limit: 24`,
   * `filter: filter || undefined`, `sfw: sfw ? true : undefined` and, where
   * the page has the checkbox, `continuing: continuing ? true : undefined`.
   */
  function FetchParams(f: Filters, pageNum: int): (p: Obj)
    ensures Get(p, "page") == Num(pageNum) && Get(p, "limit") == Num(24)
    ensures Get(p, "unapproved") == Undefined
    ensures f.continuing.None? ==> "continuing" !in p
  {
    var p := map["page" := Num(pageNum), "limit" := Num(24),
                 "filter" := (if f.filter == "" then Undefined else Str(f.filter)),
                 "sfw" := (if f.sfw then Bool(true) else Undefined)];
    if f.continuing.Some? then p["continuing" := (if f.continuing.value then Bool(true) else Undefined)] else p
  }

  /**
   * What the season endpoints send for it: the type filter only when one
   * is chosen, `sfw` and `continuing` as bare flags exactly when their
   * boxes are ticked (an unticked box sends nothing, not `false`), never
   * `unapproved`, always `limit=24`, and the page when it is not 0.
   */
  lemma FetchQuery(f: Filters, pageNum: int)
    ensures var q := SeasonQuery(FetchParams(f, pageNum));
            Lookup(q, "filter") == (if f.filter == "" then None else Some(f.filter)) &&
            Lookup(q, "sfw") == (if f.sfw then Some("") else None) &&
            Lookup(q, "continuing") == (if f.continuing == Some(true) then Some("") else None) &&
            Lookup(q, "unapproved") == None &&
            Lookup(q, "limit") == Some("24") &&
            Lookup(q, "page") == (if pageNum != 0 then Some(IntToString(pageNum)) else None)
  {
    SmallNumerals();
    SeasonParams(FetchParams(f, pageNum));
  }

  /**
   * A page without the `continuing` box sends the same query as one whose
   * box is left unticked.
   */
  lemma MissingBoxIsUnticked(f: Filters, pageNum: int)
    requires f.continuing.None?
    ensures SeasonQuery(FetchParams(f, pageNum)) == SeasonQuery(FetchParams(f.(continuing := Some(false)), pageNum))
  {
    BuildReadsOnlyGet(SeasonRules, FetchParams(f, pageNum), FetchParams(f.(continuing := Some(false)), pageNum));
  }
}
