/** The event list the calendar keeps in component state, and the three
    updates applied to it: append on create, title replacement on edit and
    removal by id on delete. */
module Events {
  import opened Wrappers
  import opened Time
  import opened Seqs

  /** An event record `{id, title, location, start, end}`. `location` and
      `end` are optional because the code reading them falls back when they
      are absent. */
  datatype Event = Event(id: int, title: string, location: Option<string>, start: Moment, end: Option<Moment>)

  /** `event.end || event.start`: the moment an event is over. */
  function LastMoment(e: Event): Moment {
    e.end.GetOr(e.start)
  }

  /** `event.location || ""`. */
  function LocationText(e: Event): string {
    e.location.GetOr("")
  }

  /** The shape of every event the create dialog stores: a location, and an
      end on the start's own day, not before the start. */
  predicate WellFormed(e: Event) {
    && e.location.Some?
    && e.end.Some?
    && e.end.value.day == e.start.day
    && !Before(e.end.value, e.start)
  }

  predicate AllWellFormed(es: seq<Event>) {
    forall e :: e in es ==> WellFormed(e)
  }

  function Ids(es: seq<Event>): set<int> {
    set e | e in es :: e.id
  }

  /** No two positions of the list hold the same id. */
  predicate UniqueIds(es: seq<Event>) {
    forall i, j :: 0 <= i < j < |es| ==> es[i].id != es[j].id
  }

  /** `prev.filter((e) => e.id !== id)`: every event carrying `id` goes, every
      other event stays, with its multiplicity and in its order. */
  function RemoveId(es: seq<Event>, id: int): (r: seq<Event>)
    ensures forall e :: e in r <==> e in es && e.id != id
    ensures forall e :: multiset(r)[e] == if e.id == id then 0 else multiset(es)[e]
    ensures id !in Ids(r)
  {
    FilterMultiplicity(es, (e: Event) => e.id != id);
    Filter(es, (e: Event) => e.id != id)
  }

  /** One event after an edit of `id`'s title to `t`. */
  function Retitle(e: Event, id: int, t: string): Event {
    if e.id == id then e.(title := t) else e
  }

  /** `prev.map((e) => e.id === id ? { ...e, title: t } : e)`: the list keeps
      its length and every event keeps its id, location, start and end; events
      with `id` now carry `t`, the others keep their title. */
  function Rename(es: seq<Event>, id: int, t: string): (r: seq<Event>)
    ensures |r| == |es|
    ensures forall i :: 0 <= i < |es| ==>
              && r[i].id == es[i].id && r[i].location == es[i].location
              && r[i].start == es[i].start && r[i].end == es[i].end
    ensures forall i :: 0 <= i < |es| ==> r[i].title == if es[i].id == id then t else es[i].title
  {
    Map(es, (e: Event) => Retitle(e, id, t))
  }

  // ---------------------------------------------------------------------
  // Delete

  /** Delete keeps the surviving events in order: deleting from a
      concatenation deletes from each part and keeps the parts in order. */
  lemma RemoveConcat(a: seq<Event>, b: seq<Event>, id: int)
    ensures RemoveId(a + b, id) == RemoveId(a, id) + RemoveId(b, id)
  {
    FilterConcat(a, b, (e: Event) => e.id != id);
  }

  /** Deleting an id no event carries changes nothing. */
  lemma RemoveAbsent(es: seq<Event>, id: int)
    requires id !in Ids(es)
    ensures RemoveId(es, id) == es
  {
    FilterKeepsAll(es, (e: Event) => e.id != id);
  }

  /** A second delete of the same id is a no-op, not an error. */
  lemma RemoveIdempotent(es: seq<Event>, id: int)
    ensures RemoveId(RemoveId(es, id), id) == RemoveId(es, id)
  {
    RemoveAbsent(RemoveId(es, id), id);
  }

  lemma UniqueTail(es: seq<Event>)
    requires es != [] && UniqueIds(es)
    ensures UniqueIds(es[1..]) && es[0].id !in Ids(es[1..])
  {
  }

  /** With unique ids, deleting a live id removes exactly one event. */
  lemma {:induction false} RemoveExactlyOne(es: seq<Event>, id: int)
    requires UniqueIds(es) && id in Ids(es)
    ensures |RemoveId(es, id)| == |es| - 1
    decreases |es|
  {
    UniqueTail(es);
    if es[0].id == id {
      RemoveAbsent(es[1..], id);
    } else {
      assert id in Ids(es[1..]) by {
        var e :| e in es && e.id == id;
        assert e != es[0];
        assert e in es[1..];
      }
      RemoveExactlyOne(es[1..], id);
    }
  }

  lemma ConsKeepsUnique(e: Event, es: seq<Event>)
    requires UniqueIds(es) && e.id !in Ids(es)
    ensures UniqueIds([e] + es)
  {
  }

  /** Deleting keeps ids unique. */
  lemma {:induction false} RemoveKeepsUnique(es: seq<Event>, id: int)
    requires UniqueIds(es)
    ensures UniqueIds(RemoveId(es, id))
    decreases |es|
  {
    if es != [] {
      UniqueTail(es);
      RemoveKeepsUnique(es[1..], id);
      var rest := RemoveId(es[1..], id);
      if es[0].id != id {
        assert RemoveId(es, id) == [es[0]] + rest;
        ConsKeepsUnique(es[0], rest);
      } else {
        assert RemoveId(es, id) == rest;
      }
    }
  }

  /** Appending an event with a fresh id and then deleting that id restores
      the list. */
  lemma AppendThenRemove(es: seq<Event>, e: Event)
    requires e.id !in Ids(es)
    ensures RemoveId(es + [e], e.id) == es
  {
    var p := (x: Event) => x.id != e.id;
    FilterConcat(es, [e], p);
    FilterKeepsAll(es, p);
  }

  /** Appending an event with a fresh id keeps ids unique. */
  lemma AppendKeepsUnique(es: seq<Event>, e: Event)
    requires UniqueIds(es) && e.id !in Ids(es)
    ensures UniqueIds(es + [e])
  {
  }

  // ---------------------------------------------------------------------
  // Edit

  /** Editing keeps the set of ids, so uniqueness and liveness of ids carry over. */
  lemma RenameKeepsIds(es: seq<Event>, id: int, t: string)
    ensures Ids(Rename(es, id, t)) == Ids(es)
    ensures UniqueIds(es) ==> UniqueIds(Rename(es, id, t))
  {
  }

  /** Editing an id no event carries changes nothing. */
  lemma RenameAbsent(es: seq<Event>, id: int, t: string)
    requires id !in Ids(es)
    ensures Rename(es, id, t) == es
  {
  }

  /** The last edit wins: two edits of the same id equal the second alone. */
  lemma RenameOverwrites(es: seq<Event>, id: int, t1: string, t2: string)
    ensures Rename(Rename(es, id, t1), id, t2) == Rename(es, id, t2)
  {
  }

  /** Deleting and editing keep every event well formed. */
  lemma UpdatesKeepWellFormed(es: seq<Event>, id: int, t: string)
    requires AllWellFormed(es)
    ensures AllWellFormed(RemoveId(es, id))
    ensures AllWellFormed(Rename(es, id, t))
  {
    var r := Rename(es, id, t);
    forall e | e in r ensures WellFormed(e) {
      var i :| 0 <= i < |r| && r[i] == e;
      assert es[i] in es;
    }
  }
}
