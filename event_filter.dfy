/** The events the client holds and the two filters it applies to them: a case-insensitive
    text search and a date window chosen by the active filter button. */
module EventFilter {
  import opened Text
  import opened Selection

  /** A JavaScript `Date`: milliseconds since the epoch, or the invalid date (its time is NaN). */
  datatype Instant = At(ms: int) | InvalidDate

  /** An event as the client keeps it after loading. */
  datatype Event = Event(id: int, title: string, location: string, description: string, date: Instant)

  /** The length of the "today" window: 24 * 60 * 60 * 1000 milliseconds. */
  const DAY_MS: int := 24 * 60 * 60 * 1000

  /** The search predicate: the query occurs in the lower-cased title, location or description. */
  predicate MatchesSearch(e: Event, q: string)
  {
    Includes(Lower(e.title), q) || Includes(Lower(e.location), q) || Includes(Lower(e.description), q)
  }

  /** `d >= lo && d < hi` on dates; the invalid date fails every comparison. */
  predicate Within(d: Instant, lo: int, hi: int)
  {
    d.At? && lo <= d.ms < hi
  }

  /** The "today" predicate: the event falls in the 24 hours from the start of today. */
  predicate OnDay(e: Event, today: int)
  {
    Within(e.date, today, today + DAY_MS)
  }

  /** The "this-week" predicate: the event falls between the start of today and a week later. */
  predicate InWeek(e: Event, today: int, weekFromNow: int)
  {
    Within(e.date, today, weekFromNow)
  }

  /** The date stage: "today" and "this-week" select a window; every other filter value keeps all. */
  predicate PassesDate(e: Event, filter: string, today: int, weekFromNow: int)
  {
    if filter == "today" then OnDay(e, today)
    else if filter == "this-week" then InWeek(e, today, weekFromNow)
    else true
  }

  /** Both stages at once: an empty query keeps every event. */
  predicate Keeps(e: Event, q: string, filter: string, today: int, weekFromNow: int)
  {
    (q == "" || MatchesSearch(e, q)) && PassesDate(e, filter, today, weekFromNow)
  }

  function Matcher(q: string): Event -> bool
  {
    e => MatchesSearch(e, q)
  }

  function OnDayTest(today: int): Event -> bool
  {
    e => OnDay(e, today)
  }

  function InWeekTest(today: int, weekFromNow: int): Event -> bool
  {
    e => InWeek(e, today, weekFromNow)
  }

  function Keeper(q: string, filter: string, today: int, weekFromNow: int): Event -> bool
  {
    e => Keeps(e, q, filter, today, weekFromNow)
  }

  /** Reference meaning of the filter step: one pass keeping the events that pass both stages. */
  function Filtered(events: seq<Event>, q: string, filter: string, today: int, weekFromNow: int): seq<Event>
  {
    Select(events, Keeper(q, filter, today, weekFromNow))
  }

  /** The filtered list is exactly the subsequence of `events` at the positions that pass. */
  lemma FilteredPositions(events: seq<Event>, q: string, filter: string, today: int, weekFromNow: int)
    ensures IsSubsequence(Filtered(events, q, filter, today, weekFromNow), events)
    ensures exists idx :: (Embeds(idx, Filtered(events, q, filter, today, weekFromNow), events) &&
      forall i :: 0 <= i < |events| ==> (i in idx <==> Keeps(events[i], q, filter, today, weekFromNow)))
  {
    var keep := Keeper(q, filter, today, weekFromNow);
    SelectPositions(events, keep);
    var idx := Kept(events, keep);
    assert Embeds(idx, Filtered(events, q, filter, today, weekFromNow), events);
  }

  /** An event is in the filtered list exactly when it is one of `events` and passes both stages. */
  lemma FilteredMembers(events: seq<Event>, q: string, filter: string, today: int, weekFromNow: int)
    ensures forall e :: e in Filtered(events, q, filter, today, weekFromNow) <==>
      e in events && Keeps(e, q, filter, today, weekFromNow)
  {
    SelectMembers(events, Keeper(q, filter, today, weekFromNow));
  }

  /** Nothing is added or duplicated: a kept event occurs as often as in `events`, a dropped one never. */
  lemma FilteredMultiplicity(events: seq<Event>, q: string, filter: string, today: int, weekFromNow: int)
    ensures forall e :: (multiset(Filtered(events, q, filter, today, weekFromNow))[e] ==
      if Keeps(e, q, filter, today, weekFromNow) then multiset(events)[e] else 0)
  {
    SelectMultiplicity(events, Keeper(q, filter, today, weekFromNow));
  }

  /** With an empty query and a filter other than "today" or "this-week" (such as "all"), every event is shown. */
  lemma NoFilterShowsAll(events: seq<Event>, filter: string, today: int, weekFromNow: int)
    requires filter != "today" && filter != "this-week"
    ensures Filtered(events, "", filter, today, weekFromNow) == events
  {
    SelectAll(events, Keeper("", filter, today, weekFromNow));
  }

  /** A filter value other than "today" or "this-week" behaves exactly like "all". */
  lemma OtherFilterIsAll(events: seq<Event>, q: string, filter: string, today: int, weekFromNow: int)
    requires filter != "today" && filter != "this-week"
    ensures Filtered(events, q, filter, today, weekFromNow) == Filtered(events, q, "all", today, weekFromNow)
  {
    SelectSame(events, Keeper(q, filter, today, weekFromNow), Keeper(q, "all", today, weekFromNow));
  }

  /** The search stage: with a non-empty query it keeps the events the search predicate accepts,
      in order; with an empty query it keeps all of them. */
  lemma SearchStage(events: seq<Event>, q: string, today: int, weekFromNow: int)
    ensures q != "" ==> Filtered(events, q, "all", today, weekFromNow) == Select(events, Matcher(q))
    ensures q == "" ==> Filtered(events, q, "all", today, weekFromNow) == events
  {
    if q == "" {
      NoFilterShowsAll(events, "all", today, weekFromNow);
    } else {
      SelectSame(events, Keeper(q, "all", today, weekFromNow), Matcher(q));
    }
  }

  /** With a non-empty query, an event survives the search exactly when the query is a substring
      of its lower-cased title, location or description. */
  lemma SearchMembers(events: seq<Event>, q: string, today: int, weekFromNow: int)
    requires q != ""
    ensures forall e :: e in Filtered(events, q, "all", today, weekFromNow) <==>
      e in events &&
      (IsSubstring(q, Lower(e.title)) || IsSubstring(q, Lower(e.location)) || IsSubstring(q, Lower(e.description)))
  {
    FilteredMembers(events, q, "all", today, weekFromNow);
    forall e: Event
      ensures MatchesSearch(e, q) <==>
        IsSubstring(q, Lower(e.title)) || IsSubstring(q, Lower(e.location)) || IsSubstring(q, Lower(e.description))
    {
      IncludesIff(Lower(e.title), q);
      IncludesIff(Lower(e.location), q);
      IncludesIff(Lower(e.description), q);
    }
  }

  /** What the user types is found whatever its case: an event one of whose fields contains the
      typed text verbatim is kept when the query is that text lower-cased. */
  lemma SearchFindsTypedText(events: seq<Event>, e: Event, typed: string, today: int, weekFromNow: int)
    requires e in events
    requires Includes(e.title, typed) || Includes(e.location, typed) || Includes(e.description, typed)
    ensures e in Filtered(events, Lower(typed), "all", today, weekFromNow)
  {
    if Includes(e.title, typed) {
      LowerFindsExact(e.title, typed);
    } else if Includes(e.location, typed) {
      LowerFindsExact(e.location, typed);
    } else {
      LowerFindsExact(e.description, typed);
    }
    FilteredMembers(events, Lower(typed), "all", today, weekFromNow);
  }

  /** "today" applies the one-day window to the search result, keeping its order. */
  lemma TodayStage(events: seq<Event>, q: string, today: int, weekFromNow: int)
    ensures Filtered(events, q, "today", today, weekFromNow) ==
      Select(Filtered(events, q, "all", today, weekFromNow), OnDayTest(today))
  {
    SelectThenSelect(events, Keeper(q, "all", today, weekFromNow), OnDayTest(today),
      Keeper(q, "today", today, weekFromNow));
  }

  /** "this-week" applies the window from today to a week later to the search result, keeping its order. */
  lemma WeekStage(events: seq<Event>, q: string, today: int, weekFromNow: int)
    ensures Filtered(events, q, "this-week", today, weekFromNow) ==
      Select(Filtered(events, q, "all", today, weekFromNow), InWeekTest(today, weekFromNow))
  {
    SelectThenSelect(events, Keeper(q, "all", today, weekFromNow), InWeekTest(today, weekFromNow),
      Keeper(q, "this-week", today, weekFromNow));
  }

  /** Under "today" an event is shown exactly when the search keeps it and its date lies in
      [today, today + DAY_MS); an invalid date is never shown. */
  lemma TodayMembers(events: seq<Event>, q: string, today: int, weekFromNow: int)
    ensures forall e :: e in Filtered(events, q, "today", today, weekFromNow) <==>
      e in Filtered(events, q, "all", today, weekFromNow) && e.date.At? && today <= e.date.ms < today + DAY_MS
  {
    FilteredMembers(events, q, "today", today, weekFromNow);
    FilteredMembers(events, q, "all", today, weekFromNow);
  }

  /** Under "this-week" an event is shown exactly when the search keeps it and its date lies in
      [today, weekFromNow); an invalid date is never shown. */
  lemma WeekMembers(events: seq<Event>, q: string, today: int, weekFromNow: int)
    ensures forall e :: e in Filtered(events, q, "this-week", today, weekFromNow) <==>
      e in Filtered(events, q, "all", today, weekFromNow) && e.date.At? && today <= e.date.ms < weekFromNow
  {
    FilteredMembers(events, q, "this-week", today, weekFromNow);
    FilteredMembers(events, q, "all", today, weekFromNow);
  }

  /** When the week ends no earlier than the day, "today" shows the "this-week" list cut to one day. */
  lemma TodayWithinWeek(events: seq<Event>, q: string, today: int, weekFromNow: int)
    requires today + DAY_MS <= weekFromNow
    ensures Filtered(events, q, "today", today, weekFromNow) ==
      Select(Filtered(events, q, "this-week", today, weekFromNow), OnDayTest(today))
  {
    SelectThenSelect(events, Keeper(q, "this-week", today, weekFromNow), OnDayTest(today),
      Keeper(q, "today", today, weekFromNow));
  }

  /** Filtering the filtered list again with the same state changes nothing. */
  lemma FilteredIdempotent(events: seq<Event>, q: string, filter: string, today: int, weekFromNow: int)
    ensures Filtered(Filtered(events, q, filter, today, weekFromNow), q, filter, today, weekFromNow) ==
      Filtered(events, q, filter, today, weekFromNow)
  {
    SelectIdempotent(events, Keeper(q, filter, today, weekFromNow));
  }

  /** Typing more narrows the list: when the old query occurs in the new one, the new result is the
      old result filtered again with the new query. */
  lemma NarrowingSearch(events: seq<Event>, older: string, newer: string, filter: string, today: int, weekFromNow: int)
    requires Includes(newer, older)
    ensures Filtered(events, newer, filter, today, weekFromNow) ==
      Filtered(Filtered(events, older, filter, today, weekFromNow), newer, filter, today, weekFromNow)
  {
    var keepOld, keepNew := Keeper(older, filter, today, weekFromNow), Keeper(newer, filter, today, weekFromNow);
    forall i | 0 <= i < |events| ensures keepNew(events[i]) == (keepOld(events[i]) && keepNew(events[i])) {
      var e := events[i];
      if newer != "" && MatchesSearch(e, newer) && older != "" {
        if Includes(Lower(e.title), newer) {
          IncludesTransitive(Lower(e.title), newer, older);
        } else if Includes(Lower(e.location), newer) {
          IncludesTransitive(Lower(e.location), newer, older);
        } else {
          IncludesTransitive(Lower(e.description), newer, older);
        }
      }
    }
    SelectThenSelect(events, keepOld, keepNew, keepNew);
  }
}
