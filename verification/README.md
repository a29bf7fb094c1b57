# Event tracker calendar — state model

A model of the logic inside the calendar's single React component
(`src/components/App.js`). It does not model the rendering. The model covers:

- the **event list**: records `{id, title, location, start, end}` in insertion order,
  with append on save, title replacement on edit, and removal by id on delete;
- the **temporal classifier**: `isPastEvent` and `isUpcomingEvent`, which compare calendar days;
- the **filter projection** `filteredEvents` (`ALL` / `PAST` / `UPCOMING`), and the colour
  that `eventStyleGetter` picks;
- the **dialog and draft state**: `openCreate`, `openView`, `selectedDate`, `selectedEvent`,
  `title` and `location`, changed by the slot and event selection handlers, save, cancel,
  delete, edit and close.

Time is a calendar day number plus a millisecond within that day (`Time.Moment`).
"Now" is a parameter. The id that `Date.now()` would produce is passed in as `stamp`.
The text returned by `window.prompt` is passed in as an `Option<string>`.

Files and modules:

| file | module | contents |
|---|---|---|
| wrappers.dfy | `Wrappers` | `Option` |
| seqs.dfy | `Seqs` | order-preserving `Filter` and `Map`, with lemmas about concatenation, identity and commutation |
| text.dfy | `Text` | JavaScript `String.prototype.trim` over ECMAScript's whitespace set |
| time.dfy | `Time` | `Moment`, start and end of day |
| events.dfy | `Events` | the event record and the delete and edit updates of the list |
| classify.dfy | `Classify` | past/upcoming predicates, event style |
| projection.dfy | `Projection` | filter modes and the visible list |
| calendar.dfy | `Calendar` | component state, one function per handler, gestures, the session invariant, scenarios |

Behaviour of the component worth noting, all of it modelled as written:

- Deleting or editing an id that no event carries changes nothing (App.js:78, 86-90), so a second delete of the same id is a no-op (`Events.RemoveIdempotent`).
- The create and view dialogs are two independent flags (App.js:20-21), each with its own loosely associated selection field (App.js:22-23).
- Saving does not clear the draft title, location or picked day (App.js:60-74).
- Deleting does not clear the picked event (App.js:76-80).
- After an edit, `selectedEvent` is still the old snapshot with the old title (App.js:82-91).
- The new title from an edit is stored untrimmed and may be empty (App.js:88).

## Model

| member | source | states |
|---|---|---|
| Seqs.Filter | src/components/App.js:33-34 | `Array.prototype.filter`: the result is no longer than the input; every element kept is from the input and satisfies the predicate; every satisfying element of the input is kept |
| Seqs.Map | src/components/App.js:87-89 | `Array.prototype.map`: the result has the input's length and holds the function's value of the element at every position |
| Seqs.FilterMultiplicity | src/components/App.js:33-34 | a filter keeps each passing element as many times as it occurs and drops all copies of every other element |
| Seqs.FilterSingle | src/components/App.js:33-34 | filtering a one-element list keeps the element exactly when it passes |
| Seqs.FilterKeepsAll | src/components/App.js:33-34 | a filter that every element passes returns its input unchanged |
| Seqs.FilterKeepsNone | src/components/App.js:33-34 | a filter that no element passes returns the empty list |
| Seqs.FilterConcat | src/components/App.js:33-34 | filtering keeps order: filtering a concatenation gives the filtered front followed by the filtered back |
| Seqs.FilterMapCommute | src/components/App.js:86-90 | a filter commutes with a map that does not change the filter's verdict |
| Text.Trim | src/components/App.js:61 | `trim()` returns the infix of the input that is left after removing whitespace at both ends; the result starts and ends with non-whitespace, and it is empty exactly when the input is all whitespace |
| Text.TrimUnique | src/components/App.js:67-68 | trimming a string that has no outer whitespace, after padding it with whitespace on both sides, gives the string back |
| Text.TrimKeepsTrimmed | src/components/App.js:67-68 | a string with no outer whitespace is its own trim |
| Text.TrimIdempotent | src/components/App.js:67-68 | trimming twice gives the same result as trimming once |
| Time.StartOfDay | src/components/App.js:69 | `startOf("day")` stays on the same day, and no moment of that day comes before it |
| Time.EndOfDay | src/components/App.js:70 | `endOf("day")` stays on the same day, and no moment of that day comes after it |
| Time.DayBounds | src/components/App.js:69-70 | the start and end of a day bracket every moment of that day, and the start comes strictly before the end |
| Events.LastMoment | src/components/App.js:28 | definition: `event.end || event.start`, the end when present and otherwise the start; used by `Classify.IsPast` and stated about by `Classify.Classification` |
| Events.LocationText | src/components/App.js:56 | definition: `event.location || ""`; `Calendar.SelectEvent` states that the draft location receives it |
| Events.RemoveId | src/components/App.js:78 | delete's filter drops every event with the id and keeps every other event, with the same multiplicity; afterwards no event carries the id |
| Events.RemoveConcat | src/components/App.js:78 | delete keeps the surviving events in order: deleting from a concatenation gives the deletion from the front followed by the deletion from the back |
| Events.RemoveAbsent | src/components/App.js:78 | deleting an id that no event carries leaves the list unchanged |
| Events.RemoveIdempotent | src/components/App.js:78 | deleting the same id a second time changes nothing |
| Events.RemoveExactlyOne | src/components/App.js:78 | if ids are unique and the id is live, delete shortens the list by exactly one |
| Events.RemoveKeepsUnique | src/components/App.js:78 | delete keeps ids unique |
| Events.AppendThenRemove | src/components/App.js:72 | appending an event with a fresh id and then deleting that id gives back the original list |
| Events.AppendKeepsUnique | src/components/App.js:72 | appending an event with a fresh id keeps ids unique |
| Events.Rename | src/components/App.js:86-90 | edit's map keeps the length; in every event the id, location, start and end are unchanged; matching events get the new title; other events keep their title |
| Events.Retitle | src/components/App.js:88 | definition: the event with `id` gets the new title and all other fields kept, any other event is returned as it is; its effect over a list is stated by `Events.Rename` |
| Events.RenameKeepsIds | src/components/App.js:86-90 | edit leaves the set of ids unchanged and keeps ids unique |
| Events.RenameAbsent | src/components/App.js:86-90 | editing an id that no event carries leaves the list unchanged |
| Events.RenameOverwrites | src/components/App.js:86-90 | two edits of the same id give the same list as the second edit alone |
| Events.UpdatesKeepWellFormed | src/components/App.js:76-91 | after a delete or an edit, every event is still a well-formed single-day event |
| Classify.IsPast | src/components/App.js:27-28 | definition: the day of the event's end (its start when it has no end) is strictly before today; its properties are stated by `Classify.Classification`, `Classify.TodayIsUpcomingNotPast` and `Classify.ClassificationMonotone` |
| Classify.IsUpcoming | src/components/App.js:29-30 | definition: the event's start day is today or later; its properties are stated by the same lemmas and by `Classify.StyleFor` |
| Classify.TodayIsUpcomingNotPast | src/components/App.js:27-30 | an event that starts and ends today is upcoming and not past |
| Classify.WellFormedSameDay | src/components/App.js:69-70 | a stored event ends on the day it starts |
| Classify.Classification | src/components/App.js:27-30 | an event that does not end before the day it starts is never both past and upcoming; it is neither exactly when it started before today and ends today or later |
| Classify.SingleDayIsPastXorUpcoming | src/components/App.js:27-30 | a single-day event is past exactly when it is not upcoming |
| Classify.ClassificationMonotone | src/components/App.js:27-30 | as "now" moves later, a past event stays past, and an event that is upcoming later was already upcoming earlier |
| Classify.StyleFor | src/components/App.js:38-44 | the background is green exactly when the event is upcoming and rose otherwise; the text is white and there is no border |
| Projection.Project | src/components/App.js:32-36 | `ALL` returns the list unchanged; `PAST` and `UPCOMING` keep exactly the events their predicate accepts, with their multiplicity |
| Projection.ProjectConcat | src/components/App.js:32-36 | the projection keeps order: projecting a concatenation gives the projected front followed by the projected back |
| Projection.ProjectSingle | src/components/App.js:32-36 | the projection of a one-event list is that event when the mode shows it and empty otherwise |
| Projection.ProjectAppend | src/components/App.js:32-36 | an appended event shows up last in the visible list, and only if the mode shows it |
| Projection.PastUpcomingDisjoint | src/components/App.js:27-34 | for events that do not end before the day they start, no event is in both the past view and the upcoming view |
| Projection.InProgress | src/components/App.js:27-34 | the events that neither the past nor the upcoming filter shows, each as often as in the list and nothing else |
| Projection.PastUpcomingRest | src/components/App.js:27-34 | for events that do not end before the day they start, the past view, the upcoming view and the events in progress today together hold exactly the events of the list, each as often as the list does, so their lengths add up to the list's |
| Projection.PastUpcomingPartition | src/components/App.js:27-34 | stored events split completely between the past view and the upcoming view: together the two views hold exactly the events of the list, each as often as the list does |
| Projection.ProjectRename | src/components/App.js:86-90 | editing a title commutes with every projection, so an edit never moves an event into or out of a view |
| Projection.ViewsAgreeWithColour | src/components/App.js:38-44 | events in the upcoming view get the upcoming colour, and stored events in the past view get the past colour, whatever the active filter |
| Projection.YesterdayTomorrow | src/components/App.js:27-34 | with one event from yesterday and one from tomorrow, the past view is the first event and the upcoming view is the second |
| Calendar.Initial | src/components/App.js:17-25 | definition: empty list, filter `ALL`, both dialogs closed, nothing picked, empty draft; `Calendar.ReachableIsConsistent` states that every session from it stays consistent |
| Calendar.Visible | src/components/App.js:32-36 | definition: the list handed to the grid is the projection of the current list under the current filter; stated about by `Projection.Project` and `Calendar.PickAndEdit` |
| Calendar.SetFilter | src/components/App.js:98-106 | a filter button sets the mode and leaves the list and the dialogs unchanged |
| Calendar.SelectSlot | src/components/App.js:46-51 | picking a slot records the day, clears the draft title and location, opens the create dialog, and changes nothing else |
| Calendar.SelectEvent | src/components/App.js:53-58 | picking an event records it, copies its title and its location (or "" when it has none) into the draft, opens the view dialog, and changes nothing else |
| Calendar.TypeTitle | src/components/App.js:144 | typing in the title field changes only the draft title |
| Calendar.TypeLocation | src/components/App.js:149 | typing in the location field changes only the draft location |
| Calendar.CancelCreate | src/components/App.js:155-158 | Cancel closes the create dialog and changes nothing else |
| Calendar.CloseView | src/components/App.js:184-187 | closing the view dialog changes nothing else |
| Calendar.CreateSave | src/components/App.js:60-74 | if no day is picked or the title trims to empty, the list is unchanged; otherwise exactly one event is appended after the unchanged old events, with the given stamp as id, the trimmed title (non-empty) and trimmed location, and start and end at the first and last millisecond of the picked day; the create dialog always closes |
| Calendar.Delete | src/components/App.js:76-80 | with no event picked the state is unchanged; otherwise the picked id is removed from the list and the view dialog closes |
| Calendar.EditInline | src/components/App.js:82-91 | with no event picked, or a cancelled prompt, the state is unchanged; otherwise events with the picked id take the answer as their title, and the dialogs and selection stay as they were |
| Calendar.CreateSaveKeepsConsistent | src/components/App.js:60-74 | a save with a fresh stamp keeps the state consistent: events are well formed, ids are unique, and an open view points at a live event |
| Calendar.EditKeepsConsistent | src/components/App.js:82-91 | an edit keeps the state consistent |
| Calendar.DeleteKeepsConsistent | src/components/App.js:76-80 | a delete keeps the state consistent |
| Calendar.StepKeepsConsistent | src/components/App.js:46-91 | every admissible gesture keeps the state consistent |
| Calendar.RunKeepsConsistent | src/components/App.js:46-91 | an admissible session that starts consistent stays consistent |
| Calendar.ReachableIsConsistent | src/components/App.js:17-25 | every admissible session that starts from the initial state reaches only consistent states |
| Calendar.DeleteFromViewRemovesOne | src/components/App.js:76-80 | in a consistent state, Delete in the open view dialog removes exactly the picked event and always finds it |
| Calendar.DeleteTwice | src/components/App.js:76-80 | pressing Delete a second time does not change the list further |
| Calendar.CreatePickDeleteRestores | src/components/App.js:60-80 | saving a new event with a fresh stamp, picking it and deleting it gives back the earlier list |
| Calendar.PickAndEdit | src/components/App.js:53-91 | picking a stored event and confirming a new title gives that event the new title and keeps everything else about it; events with that id carry the new title; the length and every view's membership are unchanged |
| Calendar.CreateScenario | src/components/App.js:46-74 | picking a day, typing a title and location with no outer whitespace, and saving gives a list with exactly that event, spanning the whole day |
| Calendar.BlankTitleScenario | src/components/App.js:60-64 | saving with a blank or whitespace-only title stores nothing and closes the dialog |

## Left out

- Rendering is not modelled: JSX, the `BigCalendar` grid, the `Popup` dialogs and their internal `close()` state, CSS, and the "March 2023" header. These are presentation and third-party widgets.
- moment.js is not modelled. A `Date` becomes a local calendar day number and a millisecond within the day. Time zones, daylight-saving shifts and date formatting (line 196) are out of scope.
- The wall clock is not read. The `moment()` calls at lines 28 and 30 become the `now` parameter.
- `Date.now()` id generation (line 66) is not modelled. The caller passes the reading as `stamp`. Nothing in the component prevents two saves from getting the same id. Uniqueness is proved only when every stamp differs from all live ids (`Calendar.Admissible`).
- `window.prompt` (line 84) is a blocking browser call. Its result is passed to `Calendar.EditInline` as an `Option<string>`.
- React's `useMemo` caching and `useState` batching are not modelled. Each handler is one atomic state-to-state function, and the visible list is recomputed from the state each time (`Calendar.Visible`).
- Only the `start` of the slot passed to `handleSelectSlot` is modelled. The slot's end and other fields are ignored, as in the code.
- The placeholder text the view dialog shows for a missing location (line 198) is presentation and is not modelled.
- Projection.ViewsAgreeWithColour: holds only because the model reads one `now` for the visible list and for the colours. In the component, the filtered list is cached by `useMemo` and recomputed only when the filter or the list changes (App.js:32-36). `isPastEvent` and `isUpcomingEvent` read the clock (App.js:28, 30), and the colouring (App.js:38-44) is recomputed on every render. After midnight, a re-render that changes neither the filter nor the list can therefore keep the previous day's `PAST`/`UPCOMING` list while colouring it by the new day. Opening a dialog (App.js:50, 57) is such a re-render. An event in a stale upcoming view can then be drawn in the past colour. The cached view day is not part of `Calendar.State`.
