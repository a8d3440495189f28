/** The single-page client's state object and the handlers that update it. */
module App {
  import opened Text
  import opened Selection
  import opened EventFilter

  /** The outcome of fetching `/api/events`: the parsed events, or any failure (a response that
      is not ok, a network error, a body that is not JSON). */
  datatype Fetched = Loaded(events: seq<Event>) | Failed

  class State {
    /** Every event fetched from the server. */
    var events: seq<Event>
    /** The events currently shown. */
    var filteredEvents: seq<Event>
    /** The date filter of the last filter button pressed. */
    var currentFilter: string
    /** The lower-cased search text. */
    var searchQuery: string
    /** The clock readings of the last filter pass. */
    ghost var lastToday: int
    ghost var lastWeekFromNow: int

    /** What every handler keeps: the query is lower-case and the shown list is drawn from `events`. */
    ghost predicate Valid()
      reads this
    {
      IsLower(searchQuery) && IsSubsequence(filteredEvents, events)
    }

    /** The shown list is what the current query and filter select at the last clock reading. */
    ghost predicate Consistent()
      reads this
    {
      filteredEvents == Filtered(events, searchQuery, currentFilter, lastToday, lastWeekFromNow)
    }

    /** The initial state: nothing loaded, filter "all", empty search. */
    constructor ()
      ensures Valid() && Consistent()
      ensures events == [] && filteredEvents == [] && currentFilter == "all" && searchQuery == ""
    {
      events, filteredEvents := [], [];
      currentFilter, searchQuery := "all", "";
      lastToday, lastWeekFromNow := 0, 0;
      new;
      SubsequenceOfItself(events);
    }

    /** `filterEvents`: the search stage, then the date stage, written to `filteredEvents`.
        `today` is the start of the current local day and `weekFromNow` the same time seven
        calendar days later, both in epoch milliseconds. */
    method FilterEvents(today: int, weekFromNow: int)
      requires Valid()
      modifies this`filteredEvents, this`lastToday, this`lastWeekFromNow
      ensures Valid() && Consistent()
      ensures filteredEvents == Filtered(events, searchQuery, currentFilter, today, weekFromNow)
      ensures lastToday == today && lastWeekFromNow == weekFromNow
    {
      var q, filter := searchQuery, currentFilter;
      var filtered := events;
      if q != "" {
        filtered := Select(filtered, Matcher(q));
      }
      SearchStage(events, q, today, weekFromNow);
      assert filtered == Filtered(events, q, "all", today, weekFromNow);
      if filter == "today" {
        filtered := Select(filtered, OnDayTest(today));
        TodayStage(events, q, today, weekFromNow);
      } else if filter == "this-week" {
        filtered := Select(filtered, InWeekTest(today, weekFromNow));
        WeekStage(events, q, today, weekFromNow);
      } else {
        OtherFilterIsAll(events, q, filter, today, weekFromNow);
      }
      filteredEvents := filtered;
      lastToday, lastWeekFromNow := today, weekFromNow;
      FilteredPositions(events, q, filter, today, weekFromNow);
    }

    /** The search-input handler: stores the typed text lower-cased, then filters again. */
    method SetSearchQuery(typed: string, today: int, weekFromNow: int)
      requires Valid()
      modifies this`searchQuery, this`filteredEvents, this`lastToday, this`lastWeekFromNow
      ensures Valid() && Consistent()
      ensures searchQuery == Lower(typed)
      ensures filteredEvents == Filtered(events, Lower(typed), currentFilter, today, weekFromNow)
    {
      searchQuery := Lower(typed);
      LowerIsLower(typed);
      FilterEvents(today, weekFromNow);
    }

    /** The filter-button handler: stores the button's filter value, then filters again. */
    method SetFilter(filter: string, today: int, weekFromNow: int)
      requires Valid()
      modifies this`currentFilter, this`filteredEvents, this`lastToday, this`lastWeekFromNow
      ensures Valid() && Consistent()
      ensures currentFilter == filter
      ensures filteredEvents == Filtered(events, searchQuery, filter, today, weekFromNow)
    {
      currentFilter := filter;
      FilterEvents(today, weekFromNow);
    }

    /** The state update of `loadEvents`, as written: the loaded events are shown unfiltered,
        and a failed fetch empties both lists. */
    method Load(fetched: Fetched)
      requires Valid()
      modifies this`events, this`filteredEvents
      ensures Valid()
      ensures events == (if fetched.Loaded? then fetched.events else [])
      ensures filteredEvents == events
      ensures searchQuery == "" && currentFilter != "today" && currentFilter != "this-week" ==> Consistent()
    {
      if fetched.Loaded? {
        events := fetched.events;
        filteredEvents := events;
      } else {
        events := [];
        filteredEvents := [];
      }
      SubsequenceOfItself(events);
      if searchQuery == "" && currentFilter != "today" && currentFilter != "this-week" {
        NoFilterShowsAll(events, currentFilter, lastToday, lastWeekFromNow);
      }
    }

    /** `loadEvents` corrected: the loaded events are filtered with the query and filter already set. */
    method LoadAndRefilter(fetched: Fetched, today: int, weekFromNow: int)
      requires Valid()
      modifies this`events, this`filteredEvents, this`lastToday, this`lastWeekFromNow
      ensures Valid() && Consistent()
      ensures events == (if fetched.Loaded? then fetched.events else [])
      ensures filteredEvents == Filtered(events, searchQuery, currentFilter, today, weekFromNow)
    {
      Load(fetched);
      FilterEvents(today, weekFromNow);
    }
  }

  /** Running the filter step twice in a row leaves the same list as running it once. */
  method FilterTwice(s: State, today: int, weekFromNow: int) returns (first: seq<Event>, second: seq<Event>)
    requires s.Valid()
    modifies s
    ensures first == second
  {
    s.FilterEvents(today, weekFromNow);
    first := s.filteredEvents;
    s.FilterEvents(today, weekFromNow);
    second := s.filteredEvents;
  }

  /** A search typed while the first fetch is pending: `loadEvents` then shows an event the
      query does not match. */
  method SearchBeforeLoad() returns (shown: seq<Event>, selected: seq<Event>)
    ensures shown == [Bagels()] && selected == []
  {
    var s := new State();
    s.SetSearchQuery("Pizza Party", 0, 0);
    s.Load(Loaded([Bagels()]));
    shown := s.filteredEvents;
    selected := Filtered(s.events, s.searchQuery, s.currentFilter, 0, 0);
  }

  /** The same sequence of handlers with the corrected load shows only matching events. */
  method SearchBeforeLoadCorrected() returns (shown: seq<Event>, selected: seq<Event>)
    ensures shown == selected == []
  {
    var s := new State();
    s.SetSearchQuery("Pizza Party", 0, 0);
    s.LoadAndRefilter(Loaded([Bagels()]), 0, 0);
    shown := s.filteredEvents;
    selected := Filtered(s.events, s.searchQuery, s.currentFilter, 0, 0);
  }

  /** An event none of whose fields is as long as the query "pizza party". */
  function Bagels(): Event
  {
    Event(1, "Bagels", "Frist", "Free", At(0))
  }
}
