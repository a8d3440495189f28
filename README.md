# Free-food finder: the client-side event filter

This project models the event filter of the free-food finder's single-page client (`app.js`).
The client keeps a state object with four fields:

- `events`: every event fetched from the server.
- `filteredEvents`: the events currently shown.
- `currentFilter`: the date filter of the last filter button pressed.
- `searchQuery`: the lower-cased search text.

`filterEvents` recomputes the shown list in two stages:

1. A case-insensitive substring search over each event's title, location and description. An empty query skips this stage.
2. A date window. `"today"` keeps events in the 24 hours from the start of today. `"this-week"` keeps events from the start of today up to seven calendar days later. Any other value, `"all"` included, keeps every event.

The search-input handler stores the lower-cased input and filters again. So does the filter-button handler, with the new filter value.

Modules, one per concept:

- `Text` (text.dfy): ASCII lower-casing, and `includes` as a left-to-right scan. The scan is proved equal to the reference definition "occurs at some offset".
- `Selection` (selection.dfy): `Array.prototype.filter` as `Select`. It is proved to keep exactly the passing positions, in order, without adding or repeating anything.
- `EventFilter` (event_filter.dfy): the event and date datatypes, the predicates handed to `filter`, and `Filtered`. `Filtered` is the reference meaning of the filter step: a single pass keeping the events that pass both stages. The lemmas state the search and date-window properties of `Filtered`.
- `App` (app_state.dfy): the state object as the class `App.State`. `FilterEvents` runs the two stages one after the other, as the source does, and is proved to produce `Filtered` of the current state. The handlers are methods that update the fields and filter again.

The clock is a parameter. `new Date()` and the local-calendar arithmetic that derives `today` and `weekFromNow` are replaced by two integer millisecond arguments. A JavaScript `Date` is `Instant`: `At(ms)`, or `InvalidDate` for a date whose time is NaN. An invalid date fails every comparison, so it never passes a date window, but `"all"` keeps it.

The network is also a parameter. The fetch in `loadEvents` becomes a `Fetched` value: either the loaded events or a failure.

## Model

| member | source | states |
|---|---|---|
| Text.IncludesIff | app.js:77-79 | `s.includes(q)` is true exactly when `q` occurs in `s` at some offset |
| Text.LowerIsLower | app.js:28 | a lower-cased string contains no upper-case ASCII letter, and lower-casing it again changes nothing |
| Text.LowerFindsExact | app.js:77-79 | if `q` occurs in `s` with its exact case, lower-case `q` occurs in lower-case `s` |
| Text.IncludesTransitive | app.js:77-79 | a field that contains `q2` contains every substring of `q2` |
| Selection.Select | app.js:76-80 | `filter` returns no more elements than its input, and every element it returns passes the predicate |
| Selection.SelectPositions | app.js:76-80 | `filter` keeps exactly the positions whose element passes, in increasing order, so the result is a subsequence of the input |
| Selection.SelectMembers | app.js:76-80 | a value is in the result exactly when it is in the input and passes |
| Selection.SelectMultiplicity | app.js:76-80 | a passing value occurs as often in the result as in the input; any other value does not occur |
| Selection.SelectThenSelect | app.js:76-100 | two `filter` passes in a row equal one pass with the conjunction of the two predicates |
| EventFilter.FilteredPositions | app.js:72-108 | the filtered list is a subsequence of `events`: exactly the events at the passing positions, in their original order |
| EventFilter.FilteredMembers | app.js:72-108 | an event is shown exactly when it is one of `events` and passes both the search and the date stage |
| EventFilter.FilteredMultiplicity | app.js:72-108 | nothing is added or duplicated: a kept event occurs as often as in `events`, a dropped one never |
| EventFilter.NoFilterShowsAll | app.js:102-105 | with an empty query and a filter other than "today" or "this-week" (such as "all"), the filtered list equals `events` |
| EventFilter.OtherFilterIsAll | app.js:89-106 | any filter value other than "today" or "this-week" gives the same list as "all" |
| EventFilter.SearchStage | app.js:75-81 | an empty query keeps every event; a non-empty one keeps, in order, the events the search predicate accepts |
| EventFilter.SearchMembers | app.js:75-81 | with a non-empty query, an event survives the search exactly when the query is a substring of its lower-cased title, location or description |
| EventFilter.SearchFindsTypedText | app.js:76-80 | an event with a field that contains the typed text verbatim is kept when the query is that text lower-cased |
| EventFilter.TodayStage | app.js:90-95 | "today" applies the one-day window to the search result and keeps its order |
| EventFilter.TodayMembers | app.js:90-94 | under "today" an event is shown exactly when the search keeps it and its date `d` satisfies `today <= d < today + 86400000`; an invalid date is never shown |
| EventFilter.WeekStage | app.js:96-101 | "this-week" applies the window `[today, weekFromNow)` to the search result and keeps its order |
| EventFilter.WeekMembers | app.js:96-100 | under "this-week" an event is shown exactly when the search keeps it and its date `d` satisfies `today <= d < weekFromNow`; an invalid date is never shown |
| EventFilter.TodayWithinWeek | app.js:84-100 | when `weekFromNow` is at least a day after `today`, the "today" list is the "this-week" list cut to one day |
| EventFilter.FilteredIdempotent | app.js:71-108 | filtering the filtered list again with the same state changes nothing |
| EventFilter.NarrowingSearch | app.js:27-31 | when the old query occurs in the new one (a character typed at either end), the new list is the old list filtered again |
| App.State.constructor | app.js:2-7 | the initial state has no events, an empty shown list, filter "all" and an empty query, and the shown list agrees with them |
| App.State.FilterEvents | app.js:71-109 | the shown list becomes `Filtered` of the current events, query and filter at the given clock; only `filteredEvents` changes; the query stays lower-case and the shown list stays a subsequence of `events` |
| App.State.SetSearchQuery | app.js:27-31 | the query becomes the lower-cased input and the shown list is recomputed from the new state; events and filter are unchanged |
| App.State.SetFilter | app.js:35-44 | the filter becomes the button's value and the shown list is recomputed from the new state; events and query are unchanged |
| App.State.Load | app.js:49-68 | as written: a successful fetch stores the events and shows them all, a failed one empties both lists; the shown list agrees with the query and filter only when the query is empty and no date window is selected |
| App.State.LoadAndRefilter | app.js:49-68 | corrected: after loading, the shown list is `Filtered` of the loaded events with the query and filter already set |
| App.FilterTwice | app.js:71-108 | the filter step reads `events`, not `filteredEvents`, so running it twice gives the same list as running it once |
| App.SearchBeforeLoad | app.js:57-61 | a search typed while the fetch is pending is ignored by the load: the shown list holds an event the query does not select |
| App.SearchBeforeLoadCorrected | app.js:57-61 | with the corrected load, the same sequence of handlers shows exactly what the query selects |

## Left out

- Text.Lower: lower-cases only the ASCII letters A-Z. JavaScript's `toLowerCase` also maps other Unicode letters, and can change a string's length.
- `loadEvents` (app.js:49-68): the HTTP request, the JSON decoding and the parsing of each event's date string are not modelled. `App.State.Load` takes the outcome as a `Fetched` value, with dates already parsed into `Instant`.
- The clock (app.js:84-87): `new Date()`, the start of the local day and `setDate(+7)` are replaced by the parameters `today` and `weekFromNow`. Time zones and daylight saving are therefore not modelled. The "today" window is a fixed 86,400,000 ms, as in the source, even on a 23- or 25-hour day.
- JavaScript `Date` range limits (about ±8.64e15 ms) are not modelled; `Instant` holds any integer.
- Event fields that are not strings: a missing title, location or description makes `toLowerCase` throw, which aborts the handler. The model's fields are always strings.
- `currentFilter` is a string. A button without a `data-filter` attribute would store `undefined`, which the source's `switch` treats like any unknown value. The model has no such value.
- `renderEvents`, `escapeHtml` and the click handlers that parse `data-event-id` (app.js:112-142, 176-180): DOM rendering and HTML serialisation by the browser.
- The toggling of the buttons' `active` class (app.js:37-38): DOM presentation only.
- `formatDate` (app.js:145-149): locale-dependent formatting.
- `focusOnEvent` and `initMap` (app.js:152-173): placeholders that only log.
- `init` and the `DOMContentLoaded` wiring (app.js:18-22, 183-192): event-loop scheduling. The model is the order of handler calls that a client method makes.
- server.js (an Express server with a hard-coded placeholder list) and supabase.js (client configuration): neither contains filter logic.
- The wider system description has categorical diet/cuisine filters, sorting, distance ranking and a percentage slider. None of these are in this version of `app.js`, so the model follows the code: title/location/description search and the date filters.

## Findings

| source | as written | input that shows it | evidently intended | confidence | as-written member | corrected member |
|---|---|---|---|---|---|---|
| app.js:57-61 | `init` registers the search and filter handlers before it awaits `loadEvents`. `loadEvents` then sets `filteredEvents` to all loaded events, which discards a query or filter chosen while the fetch was pending. The list then shows events that the visible search text excludes. | Type "Pizza Party" before the response arrives; the response holds one event titled "Bagels" at "Frist", described "Free". The state shows that event, but the query selects nothing (App.SearchBeforeLoad). | After loading, apply the current query and filter, as `filterEvents` does. | medium, not executed | App.State.Load | App.State.LoadAndRefilter |
