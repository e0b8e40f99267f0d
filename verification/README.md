# KAnime in Dafny

KAnime is a React front end over the public Jikan v4 API (an unofficial
MyAnimeList mirror). This project models its core in Dafny:

- the request builders of `src/api.js`, which turn a parameter object into
  a query string under a fixed set of inclusion rules;
- the non-ok response rule, shared by every endpoint;
- the entry sanitiser `filterValidAnime`;
- the state transitions of the pages that page through those endpoints:
  Home, Characters, Genres, Schedules, Seasonal, Upcoming and the season
  archive;
- the home-page section rows and the character modal;
- the example recipes in `src/characterExamples.js` and
  `src/searchExamples.js` that combine the endpoints.

What is a side effect in the program is an input here. A fetch that may
fail is a `Result<Page<T>>` handed to a pure transition function. A page's
state is a datatype, and each event handler is a function from the old
state to the new one. An effect that React would not re-run, because a
setter received the value already held, is modelled as the state coming
back unchanged.

## Modules

| module | concern |
|---|---|
| `Results`, `Text`, `JsValues`, `Seqs`, `Sorting` | Shared vocabulary. `Option` and `Result`; decimal numerals, `trim`, `split`, `padStart`, ASCII case; JavaScript values with truthiness and `String()`; filtering and subsequences; a stable descending sort. |
| `Catalog` | The anime record, the `{ data, pagination }` page and `filterValidAnime`. |
| `Api` | One rule list per endpoint. `Build` turns a rule list and a parameter object into the ordered query. Also URL assembly and `Settle`, the ok/non-ok rule. |
| `Favorites` | The "my list" toggle that every page shares. |
| `Listing` | The paged grid behind the three season pages. |
| `SeasonArchive`, `Seasonal`, `Upcoming`, `Schedules`, `Genres`, `Home`, `CharactersPage` | One module per page. |
| `SectionRow` | The home-page rows: which URL, badge extraction, sanitising, the six-card cut. |
| `CharacterData`, `CharacterModal` | The character records and the modal's load and display rules. |
| `CharacterExamples`, `SearchRecipes` | The example recipes. |

## Model

| member | source | states |
|---|---|---|
| Catalog.FilterValid | src/api.js:291-297 | The sanitised list is no longer than its input, and every entry in it is valid. |
| Catalog.FilterValidSelects | src/api.js:291-297 | The output keeps input order, and it holds exactly the input entries that are valid. |
| Catalog.FilterValidIdempotent | src/api.js:291-297 | Sanitising an already sanitised list changes nothing. |
| Catalog.FilterValidConcat | src/api.js:291-297 | Sanitising a concatenation is the same as sanitising each part and concatenating the results. |
| Catalog.DropsTheOneInvalid | src/api.js:291-297 | When exactly one entry of a list is invalid, sanitising cuts out that entry and keeps the others in order. |
| Catalog.MissingImagePasses | src/api.js:295 | When any link of the optional image chain is missing, validity depends on the title alone. |
| Catalog.OnlyWebpLargeInspected | src/api.js:295 | The JPG images and the small WebP image never affect validity. |
| Catalog.PlaceholderRejected | src/api.js:295 | A large WebP image whose URL contains "questionmark" makes the entry invalid, whatever its title. |
| Catalog.NotAvailableTitle | src/api.js:294 | The title "Not Available" is rejected, because the test lower-cases the title first. |
| Catalog.OneUnavailableOfTwelve | src/api.js:291-297 | A twelve-entry page with exactly one "Not Available" title sanitises to the other eleven, in order. |
| Api.LookupConcat | src/api.js:17-24 | On a concatenated query, a key's first value comes from the left part when it is there, else from the right. |
| Api.Build | src/api.js:17-24 | A query has at most one pair per rule. |
| Api.BuildKeysInOrder | src/api.js:17-24 | Keys appear in the query in the order the builder's `if` statements test them. |
| Api.BuildLookup | src/api.js:17-24 | A key examined by exactly one rule reads back the value its rule gives for the parameter object. |
| Api.BuildLookupAbsent | src/api.js:17-24 | A key no rule tests is never in the query. |
| Api.BuildReadsOnlyGet | src/api.js:17-24 | Two parameter objects that agree on every key the rules examine produce the same query. |
| Api.QueryWithSearchText | src/api.js:64-67 | `q` comes first and only when the text is non-empty; every other key reads back its rule's value. |
| Api.QParamFirst | src/api.js:64-67 | Putting `q` in front keeps the rest of the key order. |
| Api.Serialize | src/api.js:26 | The serialised query is empty exactly when there are no pairs. |
| Api.SerializeIsJoin | src/api.js:26 | A non-empty query serialises as its `key=value` fields joined by "&", in query order. |
| Api.ParseSerialize | src/api.js:26 | Splitting the serialised query on "&" and each field at its first "=" gives back the query, when no key or value holds "&" and no key holds "=". |
| Api.OptionalQueryShape | src/api.js:26 | Endpoints with an optional query add no "?" when it is empty, and add "?" plus the query otherwise. |
| Api.AlwaysQueryShape | src/api.js:103 | Search endpoints always add "?", even when the query is empty. |
| Api.TopAnimeParams | src/api.js:19-24 | `type`, `filter`, `rating`, `page` and `limit` are sent only when truthy; `sfw` is sent whenever it is defined. All go in that order. |
| Api.TopAnimeFalsyValues | src/api.js:22-23 | `sfw: false` is sent as "false", while `page: 0` is dropped. |
| Api.SeasonParams | src/api.js:174-179 | `filter`, `page` and `limit` are sent when truthy. `sfw`, `unapproved` and `continuing` are sent as empty flags whenever defined, even when false. |
| Api.ScheduleParams | src/api.js:506-511 | `kids` and `sfw` are sent with their value when defined. `unapproved` is sent as an empty flag only when truthy. The rest are sent when truthy. |
| Api.CharacterSearchParams | src/api.js:398-403 | `q` comes first when non-empty; `page`, `limit`, `order_by`, `sort` and `letter` follow when truthy, in that order. |
| Api.TopCharactersAndGenresParams | src/api.js:430-431 | Top characters send `page` and `limit` when truthy. The genres query is exactly the filter when truthy, and empty otherwise. |
| Api.SearchAnimeParams | src/api.js:64-101 | `q` comes first when non-empty. `unapproved` is an empty flag when defined; `sfw` carries its value when defined. The other sixteen filters are sent when truthy. |
| Api.SearchAnimeTruthyParam | src/api.js:72-98 | Any one of the sixteen filter keys reads back exactly when truthy. |
| Api.SearchAnimeTextAndSfw | src/api.js:67-71 | The text is sent when non-empty, and `sfw` whenever defined. |
| Api.SearchAnimeFilterParam | src/api.js:72-98 | A filter named by key reads back its value exactly when truthy. |
| Api.SearchAnimeRuleKinds | src/api.js:67-98 | Only `unapproved` and `sfw` are kept when defined; every later key is kept only when truthy; none of them is `q`. |
| Api.EndpointRulesDistinct | src/api.js:17-24 | No endpoint tests the same key twice, so every key has a single value. |
| Api.Settle | src/api.js:29-33 | A call succeeds exactly when a response arrives with a 2xx status, and then yields its body. A network error is passed through. |
| Api.NonOkMessage | src/api.js:30 | A non-ok response fails with "API Error: " plus the decimal status, a space and the status text. |
| Favorites.Toggle | src/pages/Home.jsx:33-35 | After a toggle the id is present exactly when it was absent; no other id changes membership. |
| Favorites.Remove | src/pages/Home.jsx:34 | Filtering removes every copy of the id and keeps every other id. |
| Favorites.RemoveExact | src/pages/Home.jsx:34 | Filtering keeps the count of every other id, drops the id entirely and keeps the order. |
| Favorites.ToggleAbsent | src/pages/Home.jsx:34 | Toggling an absent id appends it at the end. |
| Favorites.TogglePresent | src/pages/Home.jsx:34 | Toggling a present id removes it, keeps every other id's count and order, and shortens the list. |
| Favorites.ToggleTwiceAbsent | src/pages/Home.jsx:33-35 | Toggling an absent id twice restores the list exactly. |
| Favorites.ToggleTwicePresent | src/pages/Home.jsx:33-35 | Toggling a present id twice moves it to the end. |
| Favorites.ToggleKeepsDistinct | src/pages/Home.jsx:33-35 | A list without duplicates keeps that property under toggling. |
| Listing.ApplyFetch | src/pages/Seasonal.jsx:42-68 | After a fetch settles: on success the sanitised page replaces or extends the list and `hasNextPage` follows the response; on failure the flag stays; the list stays unless the archive is clearing it; loading ends. |
| Listing.Refresh | src/pages/Seasonal.jsx:37-40 | The filter effect goes back to page 1 and asks for a replacing fetch of that page. It keeps the filters and the entries. |
| Listing.LoadMore | src/pages/Seasonal.jsx:70-74 | Load-more advances the page before fetching and asks for an appending fetch of the new page. |
| Listing.FetchKeepsValid | src/pages/Seasonal.jsx:56-60 | Whatever arrives, a grid of valid entries stays valid. |
| Listing.LoadMoreAdvancesOnFailure | src/pages/Seasonal.jsx:70-74 | A failed load-more still leaves the page counter one higher, with the list and flag unchanged. |
| Listing.ScrollShowsAllPages | src/pages/Seasonal.jsx:42-74 | After a filter change and n successful load-mores, the grid is the sanitised concatenation of all fetched pages, the page counter is n + 1, and `hasNextPage` is the last page's. |
| Listing.Select | src/pages/Seasonal.jsx:37-40 | Setting the filters a page already has sends nothing. New filters start over at page 1 with a replacing fetch, and the old entries and flag stay until it settles. |
| Listing.FailedSelection | src/pages/SeasonArchive.jsx:86-114 | When the fetch after a filter change fails, a page that keeps its list still shows the old filters' entries under page 1, and the archive shows none. |
| Listing.FetchParams | src/pages/SeasonArchive.jsx:94-100 | The season pages always send `page` and `limit: 24`, never `unapproved`, and no `continuing` key at all where the page has no such box. |
| Listing.FetchQuery | src/api.js:174-179 | The type filter is sent only when chosen. `sfw` and `continuing` are empty flags sent exactly when ticked. `unapproved` is never sent, `limit=24` always is, and the page whenever it is not 0. |
| Listing.MissingBoxIsUnticked | src/pages/Upcoming.jsx:44-49 | A page without the `continuing` box sends the same query as a page whose box is unticked. |
| SeasonArchive.Years | src/pages/SeasonArchive.jsx:53 | The year list follows the response element by element, duplicates included. |
| SeasonArchive.DirectoryLastWins | src/pages/SeasonArchive.jsx:54-57 | The directory has exactly the listed years, and a repeated year keeps the seasons of its last occurrence. |
| SeasonArchive.FallbackYears | src/pages/SeasonArchive.jsx:72 | The fallback offers fifty years, the i-th being the current year minus i. |
| SeasonArchive.FallbackYearsDescending | src/pages/SeasonArchive.jsx:72 | Those years strictly decrease and cover exactly the current year and the 49 before it. |
| SeasonArchive.FallbackSeason | src/pages/SeasonArchive.jsx:63-67 | An unknown year keeps the season, and so does a listed one. Otherwise the year's first season is chosen, or no season when the year lists none. |
| SeasonArchive.ApplyDirectory | src/pages/SeasonArchive.jsx:63-84 | A year in the directory shows its seasons and moves the selection onto one of them. The page-1 replacing fetch is requested exactly when that moves the season; otherwise the grid is untouched. The entries, years and directory never change. |
| SeasonArchive.ApplyDirectoryIdempotent | src/pages/SeasonArchive.jsx:77-84 | Applying the directory a second time changes nothing and requests nothing. |
| SeasonArchive.LoadSeasonsList | src/pages/SeasonArchive.jsx:48-84 | On success the years and the directory come from the response, and a moved season requests the page-1 fetch. On failure fifty years and the four default seasons are offered, nothing is requested and nothing else changes. |
| SeasonArchive.SelectedSeasonIsListed | src/pages/SeasonArchive.jsx:63-67 | After a successful load, a listed year with seasons always has one of its own seasons selected. |
| SeasonArchive.MovedSeasonRefetches | src/pages/SeasonArchive.jsx:63-84 | For a listed year, the load requests page 1 exactly when the selected season is not among the year's seasons, or, with no season selected, when the year lists any; the selection becomes the fallback season. |
| SeasonArchive.SpringOnlyYear | src/pages/SeasonArchive.jsx:63-84 | A year that lists only spring moves the default winter selection to spring and requests page 1 again. |
| SeasonArchive.FailedSelectionEmpties | src/pages/SeasonArchive.jsx:86-114 | Changing the selection and then failing leaves an empty grid, whatever was shown before. The menus and the directory are untouched. |
| SeasonArchive.FailedLoadMoreKeeps | src/pages/SeasonArchive.jsx:113-114 | A failed load-more keeps the grid and the advanced page; only a failed replacing fetch empties it. |
| Seasonal.FailedSelectionKeepsStale | src/pages/Seasonal.jsx:37-64 | After a filter change whose fetch fails, the old entries stay on screen under page 1. |
| Upcoming.SetFilters | src/pages/Upcoming.jsx:36-39 | The type and `sfw` controls never give the page a `continuing` box. A fetch is due exactly when the type or `sfw` changes. |
| Upcoming.UpcomingQuery | src/pages/Upcoming.jsx:44-49 | The upcoming query never mentions `continuing`, and equals the current-season query with that box unticked. |
| Upcoming.BoxStaysAbsent | src/pages/Upcoming.jsx:36-72 | Load-more, settled fetches and filter changes keep the page without a `continuing` box. |
| Schedules.CurrentDay | src/pages/Schedules.jsx:19-22 | Every weekday number names one of the seven day tabs. |
| Schedules.CurrentDayIsTab | src/pages/Schedules.jsx:9-22 | The Sunday-first weekday w selects tab (w + 6) mod 7 of the Monday-first tab row. |
| Schedules.EveryTabIsADay | src/pages/Schedules.jsx:9-22 | Every tab is the current day on exactly the weekday one after its position. |
| Schedules.CurrentDayInjective | src/pages/Schedules.jsx:19-22 | Different weekdays select different tabs. |
| Schedules.FetchParams | src/pages/Schedules.jsx:54-58 | The schedule fetch sends the active day as filter, `sfw` as the checkbox's boolean and 25 per page, with no page. |
| Schedules.FetchQuery | src/pages/Schedules.jsx:54-58 | The query names the day and the limit 25, and sends `sfw` as "true" or "false" even when unticked. |
| Schedules.Select | src/pages/Schedules.jsx:47-49 | A fetch is due exactly when the day or the checkbox changes; otherwise the state is unchanged. |
| Schedules.Fetched | src/pages/Schedules.jsx:51-65 | A success shows the sanitised list, and a failure keeps the old one. Loading ends. |
| Schedules.FetchedIdempotent | src/pages/Schedules.jsx:51-65 | Settling the same outcome twice is the same as once. |
| Schedules.ToggleMyList | src/pages/Schedules.jsx:37-39 | The favourites toggle flips the id's membership and touches nothing else. |
| Genres.FetchParams | src/pages/Genres.jsx:34 | The genre fetch passes only the filter. |
| Genres.FetchQuery | src/pages/Genres.jsx:34 | The query carries the filter when it is non-empty, and is empty otherwise. |
| Genres.Loaded | src/pages/Genres.jsx:31-43 | A success shows a permutation of the response sorted by count, most first. A failure keeps the list. |
| Genres.LoadedTiesKeepOrder | src/pages/Genres.jsx:36 | Genres with equal counts keep their response order, because the sort is stable. |
| Genres.MissingDataEmpties | src/pages/Genres.jsx:36 | A response without `data` shows no genres. |
| Genres.SetFilter | src/pages/Genres.jsx:27-29 | A reload is due exactly when the filter changes. |
| Genres.GenreClick | src/pages/Genres.jsx:45-49 | Clicking a genre navigates with its id and name. |
| Home.TabParams | src/pages/Home.jsx:78-81 | Every tab fetch asks for the given page and 12 entries, and sends no type, rating or `sfw`. |
| Home.TabQuery | src/pages/Home.jsx:78-83 | "latest" sends `filter=airing` and "popular" sends `filter=bypopularity`; any other tab sends no filter. |
| Home.FetchListData | src/pages/Home.jsx:72-94 | In favourites mode nothing happens. Otherwise a success replaces or extends the list with the sanitised page, a failure keeps the list, and both loading flags end. |
| Home.ReloadTab | src/pages/Home.jsx:100-105 | Outside favourites mode the list goes back to page 1 with the sanitised first page. |
| Home.SelectTab | src/pages/Home.jsx:100-105 | Selecting the active tab again does nothing. |
| Home.NextPage | src/pages/Home.jsx:96-98 | Advancing the page appends the sanitised next page, unless in favourites mode or on failure. |
| Home.TwoPagesAreOneFilter | src/pages/Home.jsx:96-105 | A new tab followed by one more page shows the sanitised concatenation of both pages, on page 2. |
| Home.FetchFavorites | src/pages/Home.jsx:107-118 | An empty list shows nothing. If every fetch succeeds, the records appear in list order. If any fetch fails, the old list stays. |
| Home.SetFavoritesMode | src/pages/Home.jsx:100-122 | Setting the same mode does nothing. Entering favourites with every fetch succeeding shows one record per favourite. Leaving resets to page 1. |
| Home.LeaveFavorites | src/pages/Home.jsx:100-105 | Switching favourites off from favourites mode goes back to page 1 and requests the active tab's first page; a success shows its sanitised entries and a failure keeps the grid. Outside favourites mode nothing changes and nothing is requested. Search state, tab and favourites are untouched. |
| Home.LeavingAgrees | src/pages/Home.jsx:100-126 | Leaving favourites as a search does it ends in exactly the state the favourites switch produces. |
| Home.ToggleMyList | src/pages/Home.jsx:33-35 | The list is toggled. Outside favourites mode nothing else changes. |
| Home.RemovingLastFavoriteEmpties | src/pages/Home.jsx:107-122 | Removing the only favourite while showing favourites empties the grid. |
| Home.SearchRequest | src/pages/Home.jsx:124-135 | A search is sent exactly when the text is not blank. It carries the untrimmed text and `limit: 24`. |
| Home.TextSearchQuery | src/pages/Home.jsx:130 | The search query carries the text as `q` and "24" as the limit. |
| Home.SearchSendsRawText | src/pages/Home.jsx:127-130 | The text sent is the one typed, spaces included, and the limit is 24. |
| Home.HandleSearch | src/pages/Home.jsx:100-135 | Searching leaves favourites mode. Results show exactly when the text is not blank; a success replaces them with the sanitised page and a failure keeps them. Starting outside favourites mode keeps the grid and page. Starting inside it reloads the active tab on page 1, as the effect on the favourites flag does. |
| Home.SearchFromFavorites | src/pages/Home.jsx:100-135 | A search started in favourites mode shows the same grid on the same page as switching favourites off. |
| Home.GenreParams | src/pages/Home.jsx:66 | A genre search sends the decimal genre id and a limit of 24. |
| Home.GenreQuery | src/pages/Home.jsx:66 | That search sends `genres` as the decimal id, no `q` and `limit=24`. |
| Home.HandleGenreSearch | src/pages/Home.jsx:61-105 | The genre name becomes the search text and search mode is on. A success shows the sanitised page, and a failure keeps the results. Outside favourites mode the grid and page stay; from favourites mode the active tab is reloaded on page 1. |
| Home.OnLocation | src/pages/Home.jsx:37-59 | A failed hero fetch stops everything and requests nothing. A navigation with a genre id opens the search view under the genre name and requests that genre's search. One without requests the "latest" tab's page 1 unless favourites are shown, and a success fills the grid with its sanitised entries. |
| Home.FirstLoadIsLatest | src/pages/Home.jsx:51 | Without a genre the first load asks for airing titles, twelve of them, whatever tab is active, and leaves the tab as it was. |
| Home.GenreClickLandsOnSearch | src/pages/Genres.jsx:45-49 | A click on a genre in the genres page ends as a home-page search for that genre's id. |
| Home.HeroQuery | src/pages/Home.jsx:41 | The hero request asks the top-anime ranking for five entries, with no filter and no page. |
| Home.PickHero | src/pages/Home.jsx:42 | The hero is an entry of the response, and there is one exactly when the response lists any. |
| Home.EveryEntryCanBeHero | src/pages/Home.jsx:42 | Every entry of the response is the hero for some draw. |
| CharactersPage.Display | src/pages/Characters.jsx:161 | The grid shows the search results exactly while searching, and the top list otherwise. |
| CharactersPage.LoadTop | src/pages/Characters.jsx:48-60 | Back to page 1. A success shows the response and its flag; a failure keeps both. Search state is untouched. |
| CharactersPage.TopQuery | src/pages/Characters.jsx:52 | The top list asks for 24 entries and no page. |
| CharactersPage.SearchParams | src/pages/Characters.jsx:74-80 | A search sends 24 per page, the page, the ordering and direction, and the letter only when one is selected. |
| CharactersPage.SearchQuery | src/pages/Characters.jsx:74-82 | The query has `q` when the text is non-empty and `letter` when one is selected, plus `limit=24`, the ordering and the page. |
| CharactersPage.SearchRequest | src/pages/Characters.jsx:62-82 | A search request is sent exactly when the text is not blank, a letter is selected or the call resets. It carries page 1 on a reset and the current page otherwise, and the text and letter only when set. |
| CharactersPage.HandleSearch | src/pages/Characters.jsx:62-97 | The request sent is the search request for the state and reset flag, so its page is 1 on a reset and the current page otherwise. With blank text, no letter and no reset nothing happens. Otherwise search mode is on, a reset goes to page 1 and a plain submit keeps the page. A success replaces the results and the flag; a failure keeps them. The top list is untouched. |
| CharactersPage.PlainSubmitKeepsPage | src/pages/Characters.jsx:76 | Submitting without a reset from page n > 1 asks for page n, shows that page's results and stays on page n. |
| CharactersPage.LoadMore | src/pages/Characters.jsx:99-128 | A success advances the page and takes the flag from the response. A failure changes nothing but the loading flag. |
| CharactersPage.LoadMoreExtendsDisplay | src/pages/Characters.jsx:115-119 | A successful load-more appends the page to whichever list is on screen and leaves the other alone. |
| CharactersPage.LoadMoreQuery | src/pages/Characters.jsx:101-113 | Load-more asks the search endpoint for the next page, with the text in the box when it is non-empty and the selected letter when there is one. |
| CharactersPage.LetterParams | src/pages/Characters.jsx:138-143 | A letter click sends the letter and 24 per page, and no page. |
| CharactersPage.LetterQuery | src/pages/Characters.jsx:138-143 | The letter query has the letter, no text, no page and `limit=24`. |
| CharactersPage.LetterClick | src/pages/Characters.jsx:130-151 | The letter is selected, the text cleared and search mode set on page 1. Results follow the response, or are kept on failure. |
| CharactersPage.ClearSearch | src/pages/Characters.jsx:153-159 | Search mode is off and the text, letter and page are reset. The grid then shows the reloaded top list, or the old one on failure. |
| CharactersPage.ClearedSearchIsInert | src/pages/Characters.jsx:62-64 | Right after clearing, submitting the empty search does nothing. |
| CharactersPage.ToggleSort | src/pages/Characters.jsx:304 | The toggled direction is "asc" or "desc" and differs from the old one. |
| CharactersPage.ToggleSortInvolution | src/pages/Characters.jsx:304 | Toggling twice restores "asc" or "desc". |
| CharactersPage.SetOrderBy | src/pages/Characters.jsx:293-296 | Choosing the current order does nothing. A new order reloads on page 1 and shows the response, or the old grid on failure. |
| CharactersPage.FlipSort | src/pages/Characters.jsx:39-46 | Flipping reloads on page 1, either a forced search or the top list. The grid shows the response, or the old grid on failure. |
| SectionRow.TrendingUrlMatchesTopAnime | src/components/SectionRow.jsx:13 | The trending row's URL is the top-anime URL with `filter=bypopularity` and `limit=15`. |
| SectionRow.AiringUrlMatchesTopAnime | src/components/SectionRow.jsx:14 | The airing row's URL is the top-anime URL with `filter=airing` and `limit=15`. |
| SectionRow.DefaultUrlMatchesTopAnime | src/components/SectionRow.jsx:12-18 | A row of any unknown type asks for the top fifteen. |
| SectionRow.TopAnimeLimitOnly | src/components/SectionRow.jsx:12 | The top-anime URL with only a limit of 15 is the fixed default URL. |
| SectionRow.SecondToken | src/components/SectionRow.jsx:29 | There is a second space-separated token exactly when the title has a space, and it has no space itself. |
| SectionRow.EpisodeBadge | src/components/SectionRow.jsx:29 | The badge is "NEW" exactly when the first episode's title has no non-empty second token; otherwise it is "EP " and that token. |
| SectionRow.RecentBadge | src/components/SectionRow.jsx:39 | The legacy "recent" row has no badge exactly when there is no episode number. |
| SectionRow.UnwrapItem | src/components/SectionRow.jsx:26-41 | Episode rows get the episode badge, promo rows "PROMO" and "recent" the nullable badge, each on the unwrapped entry; other rows pass items through. |
| SectionRow.Unwrap | src/components/SectionRow.jsx:26-41 | Unwrapping keeps one entry per item. |
| SectionRow.UnwrapPlain | src/components/SectionRow.jsx:26-41 | Rows that are not episode, promo or "recent" use the items as they come. |
| SectionRow.PromoBadges | src/components/SectionRow.jsx:31-35 | Every promo entry is the unwrapped entry with the badge "PROMO". |
| SectionRow.BadgeFromNumberedTitle | src/components/SectionRow.jsx:29 | "Episode 12" gives the badge "EP 12". |
| SectionRow.DoubleSpaceGivesNew | src/components/SectionRow.jsx:29 | A title with two spaces after the first word gives "NEW", because the second token is empty. |
| SectionRow.OneWordGivesNew | src/components/SectionRow.jsx:29 | A one-word title gives "NEW". |
| SectionRow.NoEpisodesGivesNew | src/components/SectionRow.jsx:29-39 | Without episodes the episode rows say "NEW" and the "recent" row has no badge. |
| SectionRow.Receive | src/components/SectionRow.jsx:43-51 | After a fetch only valid entries are stored, a failure keeps the old ones, and loading ends. |
| SectionRow.ReceiveSanitises | src/components/SectionRow.jsx:44-48 | The stored entries are exactly the valid unwrapped ones, in order. |
| SectionRow.Render | src/components/SectionRow.jsx:63-64 | Loading shows exactly six skeletons. Otherwise at most six cards are shown, taken from the front, and six when there are that many. |
| SectionRow.RenderCut | src/components/SectionRow.jsx:64 | The cards are the first six entries, or all of them when fewer. |
| CharacterData.MainRoles | src/components/CharacterModal.jsx:46 | Every kept role is a "Main" role from the list, and every "Main" role of the list is kept. |
| CharacterData.SupportingRoles | src/components/CharacterModal.jsx:47 | Every kept role is a "Supporting" role from the list, and every "Supporting" role of the list is kept. |
| CharacterData.RolesPartition | src/components/CharacterModal.jsx:46-47 | Both role lists keep list order and together are no longer than the list. Other roles are in neither. An entry is in the main list exactly when it says "Main", and in the supporting list exactly when it says "Supporting". |
| CharacterData.JapaneseVA | src/components/CharacterModal.jsx:48 | The result is the first Japanese voice, or none exactly when there is none. |
| CharacterData.EnglishVA | src/components/CharacterModal.jsx:49 | The result is the first English voice, or none exactly when there is none. |
| CharacterData.OtherLanguages | src/components/CharacterModal.jsx:302 | Every listed voice is from the list and is neither Japanese nor English, and every such voice of the list is listed. |
| CharacterData.VoicesPartition | src/components/CharacterModal.jsx:48-49 | Japanese, English and other-language voices together count every voice exactly once. |
| CharacterData.FindAgreesWithSome | src/components/CharacterModal.jsx:48-49 | A Japanese (English) actor is found exactly when some voice is Japanese (English). |
| CharacterModal.OnCharacterId | src/components/CharacterModal.jsx:15-23 | A truthy id starts loading. Any other id clears the character, roles and voices. |
| CharacterModal.ClearResets | src/components/CharacterModal.jsx:15-23 | Each falsy id returns the modal to its initial contents. |
| CharacterModal.Loaded | src/components/CharacterModal.jsx:25-42 | Only when all three fetches succeed are the character, roles and voices replaced, with missing lists read as empty. Loading ends either way. |
| CharacterModal.LoadAllOrNothing | src/components/CharacterModal.jsx:25-42 | After loading, the modal shows either all old data or all new data, never a mix. |
| CharacterModal.Show | src/components/CharacterModal.jsx:46-49 | The shown role counts are bounded by the list, and a shown Japanese (English) actor is a Japanese (English) voice of the character. |
| CharacterModal.ShownVoicesAccount | src/components/CharacterModal.jsx:302 | The "other" list holds exactly the other-language voices, and with the two lead counts accounts for every voice. |
| CharacterExamples.DataOf | src/characterExamples.js:67-83 | A response has data exactly when it succeeded and carries `data`. |
| CharacterExamples.BuildCharacterProfile | src/characterExamples.js:253-296 | A profile exists exactly when the character (with an image), roles, voices and pictures all arrive. Its lists are the responses and its statistics count them. |
| CharacterExamples.ProfileStatsBounded | src/characterExamples.js:283-288 | Main plus supporting roles never exceed the total appearances. |
| CharacterExamples.GetCharacterStats | src/characterExamples.js:365-387 | Statistics exist exactly when the three responses carry data. They count the anime and voices and say whether a Japanese or English voice exists. |
| CharacterExamples.StatsAgreeWithProfile | src/characterExamples.js:253-387 | Whenever a profile exists the statistics exist too and agree with it. The language flags match the modal's lookups. |
| CharacterExamples.CharacterMainRoles | src/characterExamples.js:88-98 | Without data there are no roles. With data the i-th anime is the anime of the i-th main role, in response order. |
| CharacterExamples.CharacterSupportingRoles | src/characterExamples.js:103-113 | Without data there are no roles. With data the i-th anime is the anime of the i-th supporting role, in response order. |
| CharacterExamples.RoleHelpersSelect | src/characterExamples.js:88-113 | An anime is returned exactly when some role of the right kind names it, and the returned anime keep the order of the response's roles. This holds for both the main and the supporting helper. |
| CharacterExamples.ProjectedRoles | src/characterExamples.js:88-113 | Filtering roles and taking their anime yields exactly the anime of the roles that pass the filter. |
| CharacterExamples.JapaneseVoiceActor | src/characterExamples.js:201-210 | A Japanese actor is returned exactly when some voice is Japanese, and it is the person of the first Japanese voice. |
| CharacterExamples.EnglishVoiceActor | src/characterExamples.js:215-224 | An English actor is returned exactly when some voice is English, and it is the person of the first English voice. |
| CharacterExamples.ComparePopularity | src/characterExamples.js:337-360 | A comparison exists exactly when both characters arrive. It holds their favourites and the absolute difference, and names the first only when strictly more popular. |
| CharacterExamples.CompareSymmetry | src/characterExamples.js:337-360 | Swapping the characters keeps the difference and the winner, except on a tie, where the second-named character always wins. |
| CharacterExamples.ByLetterParams | src/characterExamples.js:152-163 | The letter is sent upper-cased, with a limit of 25. |
| CharacterExamples.ByLetterQuery | src/characterExamples.js:152-163 | The query has no text and no page, the upper-cased letter when there is one, and `limit=25`. Letter case does not matter. |
| CharacterExamples.ByLetterFailureLooksEmpty | src/characterExamples.js:152-163 | A failed request gives the same result as a response with an empty `data` list, so callers cannot tell them apart. A response without `data` gives no list, and one with `data` gives that list. |
| SearchRecipes.ValidData | src/searchExamples.js:208-209 | A recipe succeeds exactly when the response carries `data`, and yields its sanitised entries. |
| SearchRecipes.MonthText | src/searchExamples.js:198-199 | A padded month is at least two characters long. |
| SearchRecipes.MonthTextRoundTrip | src/searchExamples.js:198-199 | Months 1 to 12 print as two digits that read back as the month, with a leading zero exactly below 10. |
| SearchRecipes.LongMonthUnchanged | src/searchExamples.js:198-199 | Padding leaves a number of two or more characters unchanged. |
| SearchRecipes.DateStartsWithYear | src/searchExamples.js:198-199 | Both dates start with the year and a dash. |
| SearchRecipes.StartDateDay | src/searchExamples.js:198 | The start date ends in "-01". |
| SearchRecipes.EndDateDay | src/searchExamples.js:199 | The end date ends in "-31". |
| SearchRecipes.SameMonthDates | src/searchExamples.js:198-199 | For the same year and month, the two dates differ only in the day. |
| SearchRecipes.ArgOr | src/searchExamples.js:357-364 | A destructured argument takes the given value unless it is undefined, and the default otherwise. |
| SearchRecipes.PutIf | src/searchExamples.js:375-378 | A conditional assignment adds or overwrites only its key, and only when the condition holds. |
| SearchRecipes.RecommendationParams | src/searchExamples.js:365-372 | Recommendations always set `min_score` (default 7), `type` (default "tv"), `order_by=score`, `sort=desc`, `sfw=true` and `limit=25`. |
| SearchRecipes.RecommendationGenresValue | src/searchExamples.js:375 | `genres` is set exactly when the argument is truthy. |
| SearchRecipes.RecommendationExcludeValue | src/searchExamples.js:376 | `genres_exclude` is set exactly when the argument is truthy. |
| SearchRecipes.RecommendationStatusValue | src/searchExamples.js:377 | `status` is set exactly when the argument is truthy. |
| SearchRecipes.RecommendationStartDateValue | src/searchExamples.js:378 | `start_date` is the year as a string exactly when the year is truthy. |
| SearchRecipes.RecommendationKeySet | src/searchExamples.js:365-378 | No key outside the ten named ones is ever set. |
| SearchRecipes.RecommendationFixedQuery | src/searchExamples.js:365-380 | The request always has `sfw=true`, `sort=desc`, `order_by=score` and no `q`. |
| SearchRecipes.RecommendationGenres | src/searchExamples.js:375-380 | The request carries the genres exactly when the argument is truthy. |
| SearchRecipes.RecommendationMinScore | src/searchExamples.js:358-380 | The request carries `min_score` exactly when it is truthy, so a minimum of 0 is dropped. |
| SearchRecipes.Recommendations | src/searchExamples.js:357-381 | Recommendations succeed exactly when the response carries `data`, and are then its sanitised entries. A failed request passes its error through, and a response without `data` fails with the TypeError. |
| SearchRecipes.PaginationParams | src/searchExamples.js:390-395 | The page and limit default to 1 and 25 and override the filters; every other key comes from the filters. |
| SearchRecipes.PaginatedPagesConcat | src/searchExamples.js:390-401 | Two successive pages, sanitised one at a time and concatenated, equal the sanitised concatenation of both responses. Each keeps its own pagination. |
| SearchRecipes.PaginationIdempotent | src/searchExamples.js:390-401 | Sanitising an already sanitised page changes neither its entries nor its pagination. |
| SearchRecipes.StatsParams | src/searchExamples.js:407 | The stats request forces a limit of 1 and keeps every other filter. |
| SearchRecipes.StatsLimitForced | src/searchExamples.js:407 | The stats request sends `limit=1` whatever the filters say, and their page when truthy. |
| SearchRecipes.StatsIgnoreData | src/searchExamples.js:406-412 | The statistics depend on the pagination alone, never on the entries, and a failed request passes its error through. |
| SearchRecipes.StatsRequestAndResult | src/searchExamples.js:406-412 | The stats request asks for a single entry, and the total reported is the pagination's item total, or 0 when it is missing. |
| SearchRecipes.ShortAnime | src/searchExamples.js:309-336 | The result succeeds exactly when all three responses carry data. It is a permutation of the three sanitised lists, sorted by score with the highest first. Otherwise it fails with the error of the first failed request, in the order OVA, special, ONA, and with the TypeError when all three arrive but one lacks `data`. |
| SearchRecipes.ShortAnimeStable | src/searchExamples.js:329-335 | Entries with equal scores keep their combined order: OVA first, then special, then ONA. |
| SearchRecipes.HiddenGems | src/searchExamples.js:68-80 | Hidden gems are valid entries that report fewer than 100 000 members; an entry without a member count is not a gem. |
| SearchRecipes.HiddenGemsSelects | src/searchExamples.js:77-79 | The gems are exactly the valid entries that report fewer than 100 000 members, in response order. |
| Sorting.SortDesc | src/pages/Genres.jsx:36 | The comparator sort yields a permutation of its input ordered by key, largest first. |
| Sorting.SortStable | src/pages/Genres.jsx:36 | Elements with equal keys keep their input order. |
| Text.IntToStringRoundTrip | src/pages/Home.jsx:66 | Every integer's decimal text reads back as the integer. |
| Text.TrimEmptyIffBlank | src/pages/Home.jsx:127 | `trim()` is empty exactly when the text is all JavaScript white space. |
| Text.JoinSplit | src/components/SectionRow.jsx:29 | Splitting on a character and rejoining gives back the text. |
| Text.SplitJoin | src/components/SectionRow.jsx:29 | Joining separator-free parts and splitting gives back the parts. |
| Text.PadStart | src/searchExamples.js:198 | `padStart` fills on the left up to the width and keeps the text as a suffix. |
| JsValues.Spread | src/searchExamples.js:391-395 | An object spread takes each key from the later object when it has it, and from the earlier otherwise. |
| JsValues.TruthyIsDefined | src/api.js:22-23 | Every truthy value is defined. The defined falsy values are exactly null, false, 0 and "". |

## Left out

- Network and storage. `fetch`, `response.json()` and `localStorage` are not modelled. Fetch outcomes are parameters, and the favourites list is a parameter. A `JSON.parse` failure of stored favourites is not modelled.
- Concurrency. Overlapping requests and the order they settle in are not modelled. Examples are the archive fetching with the old season right after a year change, and the effect chains after `showingFavorites` flips. Each transition is applied to the state its request started from.
- Percent-encoding. `URLSearchParams` escaping is not modelled. Keys and values are joined as they are, so the model assumes values that need no escaping.
- Floating point. Scores, counts and parameters are integers. `min_score: 7.5` in the hidden-gems recipe and score fractions cannot be represented. So the hidden-gems request parameters are left out, and only its filter is modelled.
- Unicode. Case mapping is ASCII only, which covers the "Not Available" test and single letters.
- Randomness and time. The hero pick's `Math.random` draw is a parameter, the index it yields. The current year and weekday, read from `new Date()` in the source, are parameters.
- Presentation. DetailModal, cards, navigation, the footer, the Discord popup and the landing page render or navigate only, and are not part of this model.
- Other example functions. The remaining functions of `src/characterExamples.js` and `src/searchExamples.js` are fixed-parameter calls of the same endpoints and add no logic, so they are left out.
- Home.FetchFavorites: a response without `data` would put `undefined` in the grid. The model takes the record as given.
- Home.OnLocation: the page state holds no hero; the pick is stated on its own by Home.PickHero. Only whether the hero request and its `data` list arrive decides whether the rest of the first load runs.
- CharactersPage.LoadMore: on the top list, load-more queries the character search endpoint, not the top-characters endpoint. It sends whatever text is in the box, even text typed but never submitted. This is modelled as written.
- Catalog.Anime: `score` and `members` are optional integers, with a null or missing value as `None`. A missing member count never counts as below 100 000, because `undefined < 100000` is false. A `members` of null, which JavaScript compares as 0, is not told apart from a missing one.
- SearchRecipes.ShortAnime: the source sorts by `b.score - a.score`, where a null score acts as 0. A missing score gives NaN there, which the sort reads as a tie with every entry, so the comparator is inconsistent. The model counts a missing score as 0 too, so for such lists the proved order may not be the browser's.
- SeasonArchive.SeasonEntry: an entry's `seasons` is always present. The source stores `item.seasons` as given, so a year without it maps to `undefined`. The checks at src/pages/SeasonArchive.jsx:63 and :78 then treat that year as if it had no directory entry, a case the model does not represent.
- SearchRecipes.MissingDataError: the TypeError from `.filter` on an undefined `data` is a fixed token. The engine's own message text is not modelled.
