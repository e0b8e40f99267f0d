/**
 * The weekly schedule page (src/pages/Schedules.jsx): one tab per weekday,
 * today's tab selected at first, a single unpaged fetch per (day, sfw)
 * pair, and the shared favourites toggle.
 */
module Schedules {
  import opened Results
  import opened Text
  import opened JsValues
  import opened Catalog
  import opened Api
  import Favorites

  datatype Day = Day(id: string, caption: string)

  /** The tabs, Monday first. */
  const Days: seq<Day> :=
    [Day("monday", "Mon"), Day("tuesday", "Tue"), Day("wednesday", "Wed"), Day("thursday", "Thu"),
     Day("friday", "Fri"), Day("saturday", "Sat"), Day("sunday", "Sun")]

  /** `Date.prototype.getDay` numbering: Sunday is 0. */
  const DayNames: seq<string> := ["sunday", "monday", "tuesday", "wednesday", "thursday", "friday", "saturday"]

  /** `getCurrentDay`, given today's `getDay()` (always 0 to 6). */
  function CurrentDay(weekday: int): (d: string)
    requires 0 <= weekday < 7
    ensures exists t :: 0 <= t < |Days| && Days[t].id == d
  {
    assert DayNames[weekday] == Days[(weekday + 6) % 7].id;
    DayNames[weekday]
  }

  /** Today's tab is the tab of that weekday: Sunday is the last tab, the rest shift by one. */
  lemma CurrentDayIsTab(weekday: int)
    requires 0 <= weekday < 7
    ensures CurrentDay(weekday) == Days[(weekday + 6) % 7].id
  {
  }

  /** Every tab is today's tab on some weekday. */
  lemma EveryTabIsADay(t: int)
    requires 0 <= t < |Days|
    ensures Days[t].id == CurrentDay((t + 1) % 7)
  {
  }

  /** Different weekdays select different tabs. */
  lemma CurrentDayInjective(v: int, w: int)
    requires 0 <= v < 7 && 0 <= w < 7 && v != w
    ensures CurrentDay(v) != CurrentDay(w)
  {
    assert forall i :: 0 <= i < 7 ==> DayNames[i][..2] == ["su", "mo", "tu", "we", "th", "fr", "sa"][i];
    assert CurrentDay(v)[..2] != CurrentDay(w)[..2];
  }

  datatype Schedule = Schedule(activeDay: string, sfwOnly: bool, animeList: seq<Anime>, loading: bool, myList: seq<int>)

  function Initial(weekday: int, myList: seq<int>): Schedule
    requires 0 <= weekday < 7
  {
    Schedule(CurrentDay(weekday), true, [], true, myList)
  }

  /** `getSchedules({ filter: activeDay, sfw: sfwOnly, limit: 25 })`. */
  function FetchParams(s: Schedule): (p: Obj)
    ensures Get(p, "filter") == Str(s.activeDay) && Get(p, "sfw") == Bool(s.sfwOnly) && Get(p, "limit") == Num(25)
    ensures Get(p, "page") == Undefined
  {
    map["filter" := Str(s.activeDay), "sfw" := Bool(s.sfwOnly), "limit" := Num(25)]
  }

  /**
   * The schedule query names the day, always carries `sfw` (an unticked
   * box sends `sfw=false`, unlike the season pages), asks for 25 entries
   * and never a page.
   */
  lemma FetchQuery(s: Schedule)
    ensures var q := ScheduleQuery(FetchParams(s));
            Lookup(q, "filter") == (if s.activeDay == "" then None else Some(s.activeDay)) &&
            Lookup(q, "sfw") == Some(if s.sfwOnly then "true" else "false") &&
            Lookup(q, "limit") == Some("25") &&
            Lookup(q, "page") == None && Lookup(q, "kids") == None && Lookup(q, "unapproved") == None
  {
    SmallNumerals();
    ScheduleParams(FetchParams(s));
  }

  /**
   * The effect on `[activeDay, sfwOnly]`: choosing another day or flipping
   * the box refetches; choosing the current values again does not.
   */
  function Select(s: Schedule, day: string, sfwOnly: bool): (r: (Schedule, bool))
    ensures r.0.activeDay == day && r.0.sfwOnly == sfwOnly
    ensures r.1 <==> day != s.activeDay || sfwOnly != s.sfwOnly
    ensures r.0.animeList == s.animeList && r.0.myList == s.myList
    ensures !r.1 ==> r.0 == s
  {
    var refetch := day != s.activeDay || sfwOnly != s.sfwOnly;
    (s.(activeDay := day, sfwOnly := sfwOnly, loading := s.loading || refetch), refetch)
  }

  /** A settled `fetchSchedule`: the sanitised entries replace the list; a failure keeps it. */
  function Fetched(s: Schedule, outcome: Result<Page<Anime>>): (t: Schedule)
    ensures outcome.Success? ==> t.animeList == FilterValid(Items(outcome.value))
    ensures outcome.Failure? ==> t.animeList == s.animeList
    ensures !t.loading && t.activeDay == s.activeDay && t.sfwOnly == s.sfwOnly && t.myList == s.myList
  {
    match outcome
    case Success(p) => s.(animeList := FilterValid(Items(p)), loading := false)
    case Failure(_) => s.(loading := false)
  }

  /** Refetching the same day is idempotent: the same response shows the same list. */
  lemma FetchedIdempotent(s: Schedule, outcome: Result<Page<Anime>>)
    ensures Fetched(Fetched(s, outcome), outcome) == Fetched(s, outcome)
  {
  }

  /** The page's `toggleMyList`, the same toggle as the home page's. */
  function ToggleMyList(s: Schedule, id: int): (t: Schedule)
    ensures id in t.myList <==> id !in s.myList
    ensures forall x :: x != id ==> (x in t.myList <==> x in s.myList)
    ensures t.(myList := s.myList) == s
  {
    s.(myList := Favorites.Toggle(s.myList, id))
  }
}
