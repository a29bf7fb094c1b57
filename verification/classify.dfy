/** The temporal classifier and the colouring that reuses it. "Now" is a
    parameter rather than a read of the wall clock, and both predicates look
    at calendar days only, never at the time of day. */
module Classify {
  import opened Time
  import opened Events

  /** `isPastEvent`: the event is over before today began, i.e. the day of its
      end (of its start when it has no end) is strictly before today. */
  predicate IsPast(e: Event, now: Moment) {
    LastMoment(e).day < now.day
  }

  /** `isUpcomingEvent`: the event starts today or on a later day. */
  predicate IsUpcoming(e: Event, now: Moment) {
    e.start.day >= now.day
  }

  /** The boundary case: an event starting and ending today is upcoming and
      never past. */
  lemma TodayIsUpcomingNotPast(e: Event, now: Moment)
    requires e.start.day == now.day && LastMoment(e).day == now.day
    ensures IsUpcoming(e, now) && !IsPast(e, now)
  {
  }

  /** A stored event ends on its start day. */
  lemma WellFormedSameDay(e: Event)
    requires WellFormed(e)
    ensures LastMoment(e).day == e.start.day
  {
  }

  /** An event that does not end on a day before it starts is never both past
      and upcoming; it is neither exactly when it started before today and
      ends today or later. */
  lemma Classification(e: Event, now: Moment)
    requires e.start.day <= LastMoment(e).day
    ensures !(IsPast(e, now) && IsUpcoming(e, now))
    ensures !IsPast(e, now) && !IsUpcoming(e, now)
            <==> e.start.day < now.day <= LastMoment(e).day
  {
  }

  /** A single-day event is exactly one of past and upcoming. */
  lemma SingleDayIsPastXorUpcoming(e: Event, now: Moment)
    requires e.start.day == LastMoment(e).day
    ensures IsPast(e, now) <==> !IsUpcoming(e, now)
  {
  }

  /** As days pass, past events stay past and events stop being upcoming
      but never start being upcoming. */
  lemma ClassificationMonotone(e: Event, now: Moment, later: Moment)
    requires now.day <= later.day
    ensures IsPast(e, now) ==> IsPast(e, later)
    ensures IsUpcoming(e, later) ==> IsUpcoming(e, now)
  {
  }

  const UPCOMING_COLOUR: string := "rgb(140, 189, 76)"
  const PAST_COLOUR: string := "rgb(222, 105, 135)"

  /** Inline style of one event on the grid. */
  datatype Style = Style(backgroundColor: string, color: string, border: string)

  /** `eventStyleGetter`: the green colour marks exactly the upcoming events;
      every other event, past or in progress, gets the rose default. Text is
      white and there is no border. The active filter plays no part. */
  function StyleFor(e: Event, now: Moment): (r: Style)
    ensures r.backgroundColor == UPCOMING_COLOUR <==> IsUpcoming(e, now)
    ensures r.backgroundColor == PAST_COLOUR <==> !IsUpcoming(e, now)
    ensures r.color == "white" && r.border == "none"
  {
    var backgroundColor := if IsUpcoming(e, now) then UPCOMING_COLOUR else PAST_COLOUR;
    Style(backgroundColor, "white", "none")
  }
}
