/** The filter bar and the visible list it derives (`filteredEvents`). */
module Projection {
  import opened Time
  import opened Seqs
  import opened Events
  import opened Classify

  datatype FilterMode = All | Past | Upcoming

  /** Whether an event is shown under `mode`. */
  predicate Shows(mode: FilterMode, e: Event, now: Moment) {
    match mode
    case All => true
    case Past => IsPast(e, now)
    case Upcoming => IsUpcoming(e, now)
  }

  function Selector(mode: FilterMode, now: Moment): Event -> bool {
    (e: Event) => Shows(mode, e, now)
  }

  /** `filteredEvents`: all events under `All`; otherwise the events the mode
      shows, each as often as in the list and nothing else. */
  function Project(es: seq<Event>, mode: FilterMode, now: Moment): (r: seq<Event>)
    ensures mode == All ==> r == es
    ensures forall e :: multiset(r)[e] == if Shows(mode, e, now) then multiset(es)[e] else 0
    ensures forall e :: e in r <==> e in es && Shows(mode, e, now)
  {
    if mode == All then es
    else
      FilterMultiplicity(es, Selector(mode, now));
      Filter(es, Selector(mode, now))
  }

  /** The projection keeps order: the visible part of a concatenation is the
      visible part of the front followed by that of the back. */
  lemma ProjectConcat(a: seq<Event>, b: seq<Event>, mode: FilterMode, now: Moment)
    ensures Project(a + b, mode, now) == Project(a, mode, now) + Project(b, mode, now)
  {
    if mode != All {
      FilterConcat(a, b, Selector(mode, now));
    }
  }

  /** A newly appended event shows up last in the visible list, and only if the
      mode shows it. */
  lemma ProjectAppend(es: seq<Event>, e: Event, mode: FilterMode, now: Moment)
    ensures Project(es + [e], mode, now)
            == Project(es, mode, now) + (if Shows(mode, e, now) then [e] else [])
  {
    ProjectConcat(es, [e], mode, now);
    ProjectSingle(e, mode, now);
  }

  /** For events that do not end before the day they start (every stored
      event), the past and upcoming views share no event. */
  lemma PastUpcomingDisjoint(es: seq<Event>, now: Moment)
    requires forall e :: e in es ==> e.start.day <= LastMoment(e).day
    ensures forall e :: !(e in Project(es, Past, now) && e in Project(es, Upcoming, now))
  {
  }

  /** The events in progress today, which neither the past nor the upcoming
      view shows. */
  function InProgress(es: seq<Event>, now: Moment): (r: seq<Event>)
    ensures forall e :: multiset(r)[e]
                        == if !IsPast(e, now) && !IsUpcoming(e, now) then multiset(es)[e] else 0
  {
    var neither := (e: Event) => !IsPast(e, now) && !IsUpcoming(e, now);
    FilterMultiplicity(es, neither);
    Filter(es, neither)
  }

  /** Events that do not end before the day they start fall into exactly one
      of three groups: the past view, the upcoming view, and the events in
      progress today; together the three hold every event, as often as the
      list does. */
  lemma PastUpcomingRest(es: seq<Event>, now: Moment)
    requires forall e :: e in es ==> e.start.day <= LastMoment(e).day
    ensures multiset(Project(es, Past, now)) + multiset(Project(es, Upcoming, now))
            + multiset(InProgress(es, now)) == multiset(es)
    ensures |Project(es, Past, now)| + |Project(es, Upcoming, now)| + |InProgress(es, now)| == |es|
  {
    var m := multiset(Project(es, Past, now)) + multiset(Project(es, Upcoming, now))
             + multiset(InProgress(es, now));
    forall e ensures m[e] == multiset(es)[e] {
      if e in es {
        Classification(e, now);
      }
    }
    assert m == multiset(es);
    assert |m| == |multiset(es)|;
  }

  /** Stored events split into the past view and the upcoming view with
      nothing left over, because a single-day event is one or the other:
      together the two views hold every event, as often as the list does. */
  lemma PastUpcomingPartition(es: seq<Event>, now: Moment)
    requires AllWellFormed(es)
    ensures multiset(Project(es, Past, now)) + multiset(Project(es, Upcoming, now)) == multiset(es)
    ensures |Project(es, Past, now)| + |Project(es, Upcoming, now)| == |es|
  {
    var m := multiset(Project(es, Past, now)) + multiset(Project(es, Upcoming, now));
    forall e ensures m[e] == multiset(es)[e] {
      if e in es {
        WellFormedSameDay(e);
      }
    }
    assert m == multiset(es);
    assert |m| == |multiset(es)|;
  }

  /** Editing a title and projecting commute: an edit never moves an event in
      or out of any view. */
  lemma ProjectRename(es: seq<Event>, id: int, t: string, mode: FilterMode, now: Moment)
    ensures Project(Rename(es, id, t), mode, now) == Rename(Project(es, mode, now), id, t)
  {
    if mode != All {
      FilterMapCommute(es, (e: Event) => Retitle(e, id, t), Selector(mode, now));
    }
  }

  /** The colour of every event in the upcoming view is the upcoming colour;
      every stored event in the past view has the past colour. */
  lemma ViewsAgreeWithColour(es: seq<Event>, now: Moment)
    requires AllWellFormed(es)
    ensures forall e :: e in Project(es, Upcoming, now) ==> StyleFor(e, now).backgroundColor == UPCOMING_COLOUR
    ensures forall e :: e in Project(es, Past, now) ==> StyleFor(e, now).backgroundColor == PAST_COLOUR
  {
  }

  /** One event dated yesterday and one dated tomorrow: the past view holds
      only the first and the upcoming view only the second. */
  lemma YesterdayTomorrow(yesterday: Event, tomorrow: Event, now: Moment)
    requires WellFormed(yesterday) && yesterday.start.day == now.day - 1
    requires WellFormed(tomorrow) && tomorrow.start.day == now.day + 1
    ensures Project([yesterday, tomorrow], Past, now) == [yesterday]
    ensures Project([yesterday, tomorrow], Upcoming, now) == [tomorrow]
  {
    assert [yesterday, tomorrow] == [yesterday] + [tomorrow];
    assert Shows(Past, yesterday, now) && !Shows(Past, tomorrow, now);
    assert !Shows(Upcoming, yesterday, now) && Shows(Upcoming, tomorrow, now);
    ProjectAppend([yesterday], tomorrow, Past, now);
    ProjectAppend([yesterday], tomorrow, Upcoming, now);
    ProjectSingle(yesterday, Past, now);
    ProjectSingle(yesterday, Upcoming, now);
  }

  lemma ProjectSingle(e: Event, mode: FilterMode, now: Moment)
    ensures Project([e], mode, now) == if Shows(mode, e, now) then [e] else []
  {
  }
}
