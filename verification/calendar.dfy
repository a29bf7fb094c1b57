/** The calendar component's state and its event handlers, each a function
    from the state before a gesture to the state after it. The dialogs are two
    independent flags plus the selection and draft fields they work on, as in
    the component itself. */
module Calendar {
  import opened Wrappers
  import opened Time
  import opened Text
  import opened Events
  import opened Classify
  import opened Projection

  /** Dialog and draft state: which popups are open, the day picked on the
      grid, the event picked on the grid, and the draft title and location. */
  datatype Ui = Ui(
    openCreate: bool,
    openView: bool,
    selectedDate: Option<Moment>,
    selectedEvent: Option<Event>,
    title: string,
    location: string)

  datatype State = State(events: seq<Event>, filter: FilterMode, ui: Ui)

  /** The state of a freshly mounted calendar. */
  function Initial(): State {
    State([], All, Ui(false, false, None, None, "", ""))
  }

  /** The events handed to the grid. */
  function Visible(s: State, now: Moment): seq<Event> {
    Project(s.events, s.filter, now)
  }

  /** One of the filter buttons. */
  function SetFilter(s: State, mode: FilterMode): (r: State)
    ensures r.filter == mode
    ensures r.events == s.events && r.ui == s.ui
  {
    s.(filter := mode)
  }

  /** `handleSelectSlot`: remember the picked day, clear the draft and open the
      create dialog; the list, the filter and the view dialog are untouched. */
  function SelectSlot(s: State, start: Moment): (r: State)
    ensures r.ui.openCreate && r.ui.selectedDate == Some(start)
    ensures r.ui.title == "" && r.ui.location == ""
    ensures r.ui.openView == s.ui.openView && r.ui.selectedEvent == s.ui.selectedEvent
    ensures r.events == s.events && r.filter == s.filter
  {
    s.(ui := s.ui.(selectedDate := Some(start), title := "", location := "", openCreate := true))
  }

  /** `handleSelectEvent`: remember the picked event, copy its title and its
      location (or "" when it has none) into the draft and open the view
      dialog. */
  function SelectEvent(s: State, e: Event): (r: State)
    ensures r.ui.openView && r.ui.selectedEvent == Some(e)
    ensures r.ui.title == e.title && r.ui.location == LocationText(e)
    ensures r.ui.openCreate == s.ui.openCreate && r.ui.selectedDate == s.ui.selectedDate
    ensures r.events == s.events && r.filter == s.filter
  {
    s.(ui := s.ui.(selectedEvent := Some(e), title := e.title, location := LocationText(e), openView := true))
  }

  /** Typing into the create dialog's title field. */
  function TypeTitle(s: State, text: string): (r: State)
    ensures r.ui.title == text
    ensures r.events == s.events && r.filter == s.filter && r.ui.(title := s.ui.title) == s.ui
  {
    s.(ui := s.ui.(title := text))
  }

  /** Typing into the create dialog's location field. */
  function TypeLocation(s: State, text: string): (r: State)
    ensures r.ui.location == text
    ensures r.events == s.events && r.filter == s.filter && r.ui.(location := s.ui.location) == s.ui
  {
    s.(ui := s.ui.(location := text))
  }

  /** The create dialog's Cancel and close buttons. */
  function CancelCreate(s: State): (r: State)
    ensures !r.ui.openCreate
    ensures r.events == s.events && r.filter == s.filter && r.ui.(openCreate := s.ui.openCreate) == s.ui
  {
    s.(ui := s.ui.(openCreate := false))
  }

  /** The view dialog's close button. */
  function CloseView(s: State): (r: State)
    ensures !r.ui.openView
    ensures r.events == s.events && r.filter == s.filter && r.ui.(openView := s.ui.openView) == s.ui
  {
    s.(ui := s.ui.(openView := false))
  }

  /** Whether the create dialog's Save has nothing to store: no day picked, or
      a title that is empty or all whitespace. */
  predicate CreateRejected(ui: Ui) {
    ui.selectedDate.None? || Trim(ui.title) == ""
  }

  /** `handleCreateSave`. `stamp` is the clock reading that becomes the new
      id. A rejected draft leaves the list alone; otherwise exactly one event
      is appended after the unchanged old ones, with the trimmed title and
      location and spanning the whole picked day. Either way the create
      dialog closes and nothing else changes. */
  function CreateSave(s: State, stamp: int): (r: State)
    ensures !r.ui.openCreate
    ensures r.filter == s.filter && r.ui.(openCreate := s.ui.openCreate) == s.ui
    ensures CreateRejected(s.ui) ==> r.events == s.events
    ensures !CreateRejected(s.ui) ==>
              && |r.events| == |s.events| + 1
              && r.events[..|s.events|] == s.events
              && var e := r.events[|s.events|];
                 && e.id == stamp
                 && e.title == Trim(s.ui.title) && e.title != "" && Trimmed(e.title)
                 && e.location == Some(Trim(s.ui.location))
                 && e.start == StartOfDay(s.ui.selectedDate.value)
                 && e.end == Some(EndOfDay(s.ui.selectedDate.value))
                 && WellFormed(e)
  {
    if CreateRejected(s.ui) then
      s.(ui := s.ui.(openCreate := false))
    else
      var day := s.ui.selectedDate.value;
      var e := Event(stamp, Trim(s.ui.title), Some(Trim(s.ui.location)), StartOfDay(day), Some(EndOfDay(day)));
      DayBounds(day);
      assert (s.events + [e])[..|s.events|] == s.events;
      s.(events := s.events + [e], ui := s.ui.(openCreate := false))
  }

  /** `handleDelete`: with no event picked nothing happens at all; otherwise
      every event with the picked id leaves the list and the view dialog
      closes. */
  function Delete(s: State): (r: State)
    ensures s.ui.selectedEvent.None? ==> r == s
    ensures s.ui.selectedEvent.Some? ==>
              && r.events == RemoveId(s.events, s.ui.selectedEvent.value.id)
              && !r.ui.openView
              && r.filter == s.filter && r.ui.(openView := s.ui.openView) == s.ui
  {
    match s.ui.selectedEvent
    case None => s
    case Some(sel) => s.(events := RemoveId(s.events, sel.id), ui := s.ui.(openView := false))
  }

  /** `handleEditInline`, with `answer` the text the title prompt returned
      (`None` when it was cancelled). With no event picked or a cancelled
      prompt nothing happens; otherwise events with the picked id take the
      answer, untrimmed, as their title. The dialogs and the picked event
      stay as they were, so the picked event keeps its old title. */
  function EditInline(s: State, answer: Option<string>): (r: State)
    ensures s.ui.selectedEvent.None? || answer.None? ==> r == s
    ensures s.ui.selectedEvent.Some? && answer.Some? ==>
              && r.events == Rename(s.events, s.ui.selectedEvent.value.id, answer.value)
              && r.filter == s.filter && r.ui == s.ui
  {
    match s.ui.selectedEvent
    case None => s
    case Some(sel) =>
      match answer
      case None => s
      case Some(t) => s.(events := Rename(s.events, sel.id, t))
  }

  // ---------------------------------------------------------------------
  // Sessions: gestures, runs and the invariant they keep

  /** What the grid, the dialogs and the filter bar can send. */
  datatype Gesture =
    | SlotPicked(start: Moment)
    | EventPicked(event: Event)
    | TitleTyped(title: string)
    | LocationTyped(location: string)
    | SaveClicked(stamp: int)
    | CreateCancelled
    | EditAnswered(answer: Option<string>)
    | DeleteClicked
    | ViewClosed
    | FilterClicked(mode: FilterMode)

  function Step(s: State, g: Gesture): State {
    match g
    case SlotPicked(start) => SelectSlot(s, start)
    case EventPicked(e) => SelectEvent(s, e)
    case TitleTyped(t) => TypeTitle(s, t)
    case LocationTyped(l) => TypeLocation(s, l)
    case SaveClicked(stamp) => CreateSave(s, stamp)
    case CreateCancelled => CancelCreate(s)
    case EditAnswered(answer) => EditInline(s, answer)
    case DeleteClicked => Delete(s)
    case ViewClosed => CloseView(s)
    case FilterClicked(mode) => SetFilter(s, mode)
  }

  /** What the surroundings guarantee: the grid only offers events of the
      list, and the clock reading used as a new id differs from every live
      id (the component itself does not check this). */
  predicate Admissible(s: State, g: Gesture) {
    match g
    case EventPicked(e) => e in s.events
    case SaveClicked(stamp) => stamp !in Ids(s.events)
    case _ => true
  }

  function Run(s: State, gs: seq<Gesture>): State
    decreases |gs|
  {
    if gs == [] then s else Run(Step(s, gs[0]), gs[1..])
  }

  predicate AdmissibleRun(s: State, gs: seq<Gesture>)
    decreases |gs|
  {
    gs == [] || (Admissible(s, gs[0]) && AdmissibleRun(Step(s, gs[0]), gs[1..]))
  }

  /** Every stored event is a well-formed single-day event, ids are unique,
      and an open view dialog is about an event that is still in the list. */
  predicate Consistent(s: State) {
    && AllWellFormed(s.events)
    && UniqueIds(s.events)
    && (s.ui.openView ==> s.ui.selectedEvent.Some? && s.ui.selectedEvent.value.id in Ids(s.events))
  }

  lemma CreateSaveKeepsConsistent(s: State, stamp: int)
    requires Consistent(s) && stamp !in Ids(s.events)
    ensures Consistent(CreateSave(s, stamp))
  {
    var r := CreateSave(s, stamp);
    if !CreateRejected(s.ui) {
      var e := r.events[|s.events|];
      assert r.events == s.events + [e];
      AppendKeepsUnique(s.events, e);
    }
  }

  lemma EditKeepsConsistent(s: State, answer: Option<string>)
    requires Consistent(s)
    ensures Consistent(EditInline(s, answer))
  {
    if s.ui.selectedEvent.Some? && answer.Some? {
      var id := s.ui.selectedEvent.value.id;
      RenameKeepsIds(s.events, id, answer.value);
      UpdatesKeepWellFormed(s.events, id, answer.value);
    }
  }

  lemma DeleteKeepsConsistent(s: State)
    requires Consistent(s)
    ensures Consistent(Delete(s))
  {
    if s.ui.selectedEvent.Some? {
      var id := s.ui.selectedEvent.value.id;
      RemoveKeepsUnique(s.events, id);
      UpdatesKeepWellFormed(s.events, id, "");
    }
  }

  /** Every admissible gesture keeps the state consistent. */
  lemma StepKeepsConsistent(s: State, g: Gesture)
    requires Consistent(s) && Admissible(s, g)
    ensures Consistent(Step(s, g))
  {
    match g
    case SaveClicked(stamp) => CreateSaveKeepsConsistent(s, stamp);
    case EditAnswered(answer) => EditKeepsConsistent(s, answer);
    case DeleteClicked => DeleteKeepsConsistent(s);
    case EventPicked(e) =>
      assert e.id in Ids(s.events);
    case _ =>
  }

  /** Any admissible session that starts consistent stays consistent. */
  lemma {:induction false} RunKeepsConsistent(s: State, gs: seq<Gesture>)
    requires Consistent(s) && AdmissibleRun(s, gs)
    ensures Consistent(Run(s, gs))
    decreases |gs|
  {
    if gs != [] {
      StepKeepsConsistent(s, gs[0]);
      RunKeepsConsistent(Step(s, gs[0]), gs[1..]);
    }
  }

  /** Every admissible session from a freshly mounted calendar reaches a
      consistent state. */
  lemma ReachableIsConsistent(gs: seq<Gesture>)
    requires AdmissibleRun(Initial(), gs)
    ensures Consistent(Run(Initial(), gs))
  {
    RunKeepsConsistent(Initial(), gs);
  }

  // ---------------------------------------------------------------------
  // Consequences for the handlers

  /** In a consistent state, Delete pressed in the open view dialog removes
      exactly one event, the picked one, and never misses. */
  lemma DeleteFromViewRemovesOne(s: State)
    requires Consistent(s) && s.ui.openView
    ensures |Delete(s).events| == |s.events| - 1
    ensures s.ui.selectedEvent.value.id !in Ids(Delete(s).events)
  {
    RemoveExactlyOne(s.events, s.ui.selectedEvent.value.id);
  }

  /** Pressing Delete a second time changes the list no further. */
  lemma DeleteTwice(s: State)
    ensures Delete(Delete(s)).events == Delete(s).events
  {
    if s.ui.selectedEvent.Some? {
      RemoveIdempotent(s.events, s.ui.selectedEvent.value.id);
    }
  }

  /** Saving a new event, picking it and deleting it gives back the list as
      it was before the save. */
  lemma CreatePickDeleteRestores(s: State, stamp: int)
    requires stamp !in Ids(s.events) && !CreateRejected(s.ui)
    ensures var c := CreateSave(s, stamp);
            Delete(SelectEvent(c, c.events[|s.events|])).events == s.events
  {
    var c := CreateSave(s, stamp);
    var e := c.events[|s.events|];
    assert c.events == s.events + [e];
    AppendThenRemove(s.events, e);
  }

  /** Picking a stored event and confirming a new title gives that event, and
      only events with its id, the new title, and moves no event into or out
      of any view. */
  lemma PickAndEdit(s: State, e: Event, t: string, now: Moment)
    requires e in s.events
    ensures var r := EditInline(SelectEvent(s, e), Some(t));
            && e.(title := t) in r.events
            && |r.events| == |s.events|
            && (forall x :: x in r.events && x.id == e.id ==> x.title == t)
            && Visible(r, now) == Rename(Visible(s, now), e.id, t)
  {
    var r := EditInline(SelectEvent(s, e), Some(t));
    assert r.events == Rename(s.events, e.id, t);
    assert r.filter == s.filter;
    var i :| 0 <= i < |s.events| && s.events[i] == e;
    assert r.events[i] == e.(title := t);
    forall x | x in r.events && x.id == e.id ensures x.title == t {
      var j :| 0 <= j < |r.events| && r.events[j] == x;
    }
    ProjectRename(s.events, e.id, t, s.filter, now);
  }

  lemma RunThree(s: State, a: Gesture, b: Gesture, c: Gesture)
    ensures Run(s, [a, b, c]) == Step(Step(Step(s, a), b), c)
  {
    var s1 := Step(s, a);
    var s2 := Step(s1, b);
    assert [a, b, c][1..] == [b, c];
    assert [b, c][1..] == [c];
    assert [c][1..] == [];
    assert Run(s2, [c]) == Step(s2, c);
    assert Run(s1, [b, c]) == Run(s2, [c]);
    assert Run(s, [a, b, c]) == Run(s1, [b, c]);
  }

  lemma RunFour(s: State, a: Gesture, b: Gesture, c: Gesture, d: Gesture)
    ensures Run(s, [a, b, c, d]) == Step(Step(Step(Step(s, a), b), c), d)
  {
    assert [a, b, c, d][1..] == [b, c, d];
    assert Run(s, [a, b, c, d]) == Run(Step(s, a), [b, c, d]);
    RunThree(Step(s, a), b, c, d);
  }

  /** The create scenario: pick a day, type a title and a location that
      carry no surrounding whitespace ("Standup", "Room 2"), save: the list
      holds exactly that event, spanning the whole day. */
  lemma CreateScenario(day: Moment, title: string, location: string, stamp: int)
    requires title != [] && Trimmed(title) && Trimmed(location)
    ensures var s := Run(Initial(), [SlotPicked(day), TitleTyped(title), LocationTyped(location), SaveClicked(stamp)]);
            s.events == [Event(stamp, title, Some(location), StartOfDay(day), Some(EndOfDay(day)))]
  {
    RunFour(Initial(), SlotPicked(day), TitleTyped(title), LocationTyped(location), SaveClicked(stamp));
    var draft := State([], All, Ui(true, false, Some(day), None, title, location));
    assert Step(Step(Step(Initial(), SlotPicked(day)), TitleTyped(title)), LocationTyped(location)) == draft;
    TrimKeepsTrimmed(title);
    TrimKeepsTrimmed(location);
    var r := CreateSave(draft, stamp);
    assert |r.events| == 1;
  }

  /** A blank or all-whitespace title saves nothing and closes the dialog. */
  lemma BlankTitleScenario(day: Moment, blank: string, stamp: int)
    requires AllWhitespace(blank)
    ensures var s := Run(Initial(), [SlotPicked(day), TitleTyped(blank), SaveClicked(stamp)]);
            s.events == [] && !s.ui.openCreate
  {
    RunThree(Initial(), SlotPicked(day), TitleTyped(blank), SaveClicked(stamp));
    var draft := State([], All, Ui(true, false, Some(day), None, blank, ""));
    assert Step(Step(Initial(), SlotPicked(day)), TitleTyped(blank)) == draft;
    assert CreateRejected(draft.ui);
  }
}
