/**
 * The mutating routes of server/routes/events.js over an in-memory event
 * store: create (`POST /`), update (`PUT /:id`), delete (`DELETE /:id`) and the
 * attendance toggle (`POST /:id/attend`). The store is a map from identifier to
 * document; `log` records every realtime broadcast in emission order. Each
 * request is one atomic step on the store.
 */
module EventRoutes {
  import opened Wrappers
  import opened EventSchema
  import Attendance

  /** A realtime broadcast. */
  datatype Notification =
    | EventCreated(event: Event)
    | EventUpdated(event: Event)
    | EventDeleted(id: EventId)
    | AttendeeUpdated(eventId: EventId, attendeeCount: nat)

  /** The outcome of a request, as the route answers it. */
  datatype Response =
    | Ok(event: Event)       // 200 with the event
    | Created(event: Event)  // 201 with the created event
    | Removed                // 200 "Event removed"
    | NotFound               // 404 "Event not found"
    | Forbidden              // 403 "Not authorized"
    | AtCapacity             // 400 "Event is at capacity"
    | ServerError            // 500 "Server error" (a document that fails validation on save)

  /** The HTTP status of a response. */
  function Status(r: Response): (code: int)
    ensures 200 <= code < 300 <==> r.Ok? || r.Created? || r.Removed?
  {
    match r
    case Ok(_) => 200
    case Created(_) => 201
    case Removed => 200
    case NotFound => 404
    case Forbidden => 403
    case AtCapacity => 400
    case ServerError => 500
  }

  /**
   * `Object.assign(event, body)`: every field the body carries overwrites the
   * document's, `name` through the trim setter; the identifier is kept.
   */
  function ApplyPatch(e: Event, body: Fields): (r: Event)
    ensures r.id == e.id
    ensures Trimmed(e.name) ==> Trimmed(r.name)
  {
    Event(
      e.id,
      if body.name.Some? then Trim(body.name.value) else e.name,
      body.description.GetOr(e.description),
      body.date.GetOr(e.date),
      body.time.GetOr(e.time),
      body.location.GetOr(e.location),
      body.category.GetOr(e.category),
      body.capacity.GetOr(e.capacity),
      if body.imageUrl.Some? then body.imageUrl else e.imageUrl,
      body.organizer.GetOr(e.organizer),
      body.attendees.GetOr(e.attendees),
      body.createdAt.GetOr(e.createdAt))
  }

  /** Every field the body carries takes the body's value (the name through `trim`); every other field keeps the document's. */
  lemma PatchFrame(e: Event, body: Fields)
    ensures var r := ApplyPatch(e, body);
      && r.name == (if body.name.Some? then Trim(body.name.value) else e.name)
      && (body.description.Some? ==> r.description == body.description.value)
      && (body.description.None? ==> r.description == e.description)
      && (body.date.Some? ==> r.date == body.date.value) && (body.date.None? ==> r.date == e.date)
      && (body.time.Some? ==> r.time == body.time.value) && (body.time.None? ==> r.time == e.time)
      && (body.location.Some? ==> r.location == body.location.value)
      && (body.location.None? ==> r.location == e.location)
      && (body.category.Some? ==> r.category == body.category.value)
      && (body.category.None? ==> r.category == e.category)
      && (body.capacity.Some? ==> r.capacity == body.capacity.value)
      && (body.capacity.None? ==> r.capacity == e.capacity)
      && (body.imageUrl.Some? ==> r.imageUrl == body.imageUrl) && (body.imageUrl.None? ==> r.imageUrl == e.imageUrl)
      && (body.organizer.Some? ==> r.organizer == body.organizer.value)
      && (body.organizer.None? ==> r.organizer == e.organizer)
      && (body.attendees.Some? ==> r.attendees == body.attendees.value)
      && (body.attendees.None? ==> r.attendees == e.attendees)
      && (body.createdAt.Some? ==> r.createdAt == body.createdAt.value)
      && (body.createdAt.None? ==> r.createdAt == e.createdAt)
  {
  }

  /** Assigning the same body twice is assigning it once. */
  lemma PatchIdempotent(e: Event, body: Fields)
    ensures ApplyPatch(ApplyPatch(e, body), body) == ApplyPatch(e, body)
  {
    var once := ApplyPatch(e, body);
    var twice := ApplyPatch(once, body);
    PatchFrame(e, body);
    PatchFrame(once, body);
    if body.name.Some? {
      TrimIdempotent(body.name.value);
    }
    assert twice.name == once.name;
    assert twice == Event(once.id, once.name, once.description, once.date, once.time, once.location,
                          once.category, once.capacity, once.imageUrl, once.organizer, once.attendees, once.createdAt);
  }

  /** An empty body changes nothing. */
  lemma ApplyEmptyPatch(e: Event)
    ensures ApplyPatch(e, NoFields) == e
  {
  }

  /**
   * The update route never re-checks the attendance invariant: a body that
   * lowers the capacity below the attendee count passes validation.
   */
  lemma PatchCanOverbook(e: Event, capacity: int)
    requires ValidEvent(e) && |e.attendees| > capacity >= 1
    ensures var r := ApplyPatch(e, NoFields.(capacity := Some(capacity)));
      ValidEvent(r) && !Attendance.Seated(r.attendees, r.capacity)
  {
  }

  /**
   * The in-place edit of the attendee list: `indexOf` the caller, then `push`
   * for a non-member below capacity or `splice` at the found index for a member.
   */
  method ToggleAttendees(attendees: seq<UserId>, capacity: int, caller: UserId)
    returns (full: bool, next: seq<UserId>)
    ensures var t := Attendance.Toggle(attendees, capacity, caller);
      full == t.Full? && (!full ==> next == t.attendees)
  {
    next := attendees;
    var i := Attendance.IndexOf(attendees, caller);
    if i == -1 {
      if |attendees| >= capacity {
        return true, attendees;
      }
      next := next + [caller];
    } else {
      Attendance.SpliceAtIndexOf(attendees, caller);
      next := next[..i] + next[i + 1..];
    }
    full := false;
  }

  /** Every document is filed under its own identifier, below the next fresh one, and passed validation. */
  ghost predicate WellFiled(events: map<EventId, Event>, nextId: EventId) {
    forall id | id in events :: events[id].id == id && id < nextId && Stored(events[id])
  }

  /** Every event is within capacity and has no duplicate attendee. */
  ghost predicate AllSeated(events: map<EventId, Event>) {
    forall id | id in events :: Attendance.Seated(events[id].attendees, events[id].capacity)
  }

  /** Filing a stored document under the next fresh identifier keeps the store well filed. */
  lemma FileFresh(events: map<EventId, Event>, nextId: EventId, e: Event)
    requires WellFiled(events, nextId) && e.id == nextId && Stored(e)
    ensures WellFiled(events[nextId := e], nextId + 1) && nextId !in events
  {
  }

  /** Overwriting a filed document with a stored one under the same identifier keeps the store well filed. */
  lemma FileOver(events: map<EventId, Event>, nextId: EventId, e: Event)
    requires WellFiled(events, nextId) && e.id in events && Stored(e)
    ensures WellFiled(events[e.id := e], nextId)
  {
  }

  /** Seating one event keeps the whole store seated. */
  lemma SeatOne(events: map<EventId, Event>, id: EventId, e: Event)
    requires AllSeated(events) && Attendance.Seated(e.attendees, e.capacity)
    ensures AllSeated(events[id := e])
  {
  }

  class EventStore {
    var events: map<EventId, Event>
    var log: seq<Notification>
    var nextId: EventId

    ghost predicate Valid()
      reads this
    {
      WellFiled(events, nextId)
    }

    constructor ()
      ensures Valid() && AllSeated(events)
      ensures events == map[] && log == [] && nextId == 0
    {
      events, log, nextId := map[], [], 0;
    }

    /**
     * `POST /`: builds the document from the body with the caller as
     * organizer, saves it under a fresh identifier and broadcasts it. A body
     * that misses a required field or fails validation is a server error.
     */
    method Create(caller: UserId, body: Fields, now: int) returns (r: Response)
      requires Valid()
      modifies this
      ensures Valid()
      ensures var d := Instantiate(body, old(nextId), caller, now);
        r.Created? <==> d.Some? && ValidEvent(d.value)
      ensures r.Created? ==>
        && r.event == Instantiate(body, old(nextId), caller, now).value
        && events == old(events)[old(nextId) := r.event]
        && nextId == old(nextId) + 1
        && log == old(log) + [EventCreated(r.event)]
      ensures !r.Created? ==> r == ServerError && events == old(events) && nextId == old(nextId) && log == old(log)
      ensures r.Created? ==> r.event.organizer == caller && old(nextId) !in old(events)
      ensures old(AllSeated(events)) && body.attendees.None? ==> AllSeated(events)
    {
      var d := Instantiate(body, nextId, caller, now);
      if d.None? || !ValidEvent(d.value) {
        return ServerError;
      }
      var e := d.value;
      FileFresh(events, nextId, e);
      if AllSeated(events) && body.attendees.None? {
        SeatOne(events, nextId, e);
      }
      events := events[nextId := e];
      nextId := nextId + 1;
      log := log + [EventCreated(e)];
      r := Created(e);
    }

    /**
     * `PUT /:id`: only the organizer may update; the body is assigned onto the
     * document, which is saved (validators run) and broadcast.
     */
    method Update(id: EventId, caller: UserId, body: Fields) returns (r: Response)
      requires Valid()
      modifies this
      ensures Valid() && nextId == old(nextId)
      ensures id !in old(events) ==> r == NotFound
      ensures id in old(events) && old(events)[id].organizer != caller ==> r == Forbidden
      ensures id in old(events) && old(events)[id].organizer == caller ==>
        var e := ApplyPatch(old(events)[id], body);
        if ValidEvent(e) then
          r == Ok(e) && events == old(events)[id := e] && log == old(log) + [EventUpdated(e)]
        else r == ServerError
      ensures !r.Ok? ==> events == old(events) && log == old(log)
    {
      if id !in events {
        return NotFound;
      }
      var e := events[id];
      if e.organizer != caller {
        return Forbidden;
      }
      e := ApplyPatch(e, body);
      if !ValidEvent(e) {
        return ServerError;
      }
      FileOver(events, nextId, e);
      events := events[id := e];
      log := log + [EventUpdated(e)];
      r := Ok(e);
    }

    /** `DELETE /:id`: only the organizer may remove the event; its identifier is broadcast. */
    method Delete(id: EventId, caller: UserId) returns (r: Response)
      requires Valid()
      modifies this
      ensures Valid() && nextId == old(nextId)
      ensures id !in old(events) ==> r == NotFound
      ensures id in old(events) && old(events)[id].organizer != caller ==> r == Forbidden
      ensures id in old(events) && old(events)[id].organizer == caller ==>
        r == Removed && events == old(events) - {id} && log == old(log) + [EventDeleted(id)]
      ensures !r.Removed? ==> events == old(events) && log == old(log)
      ensures old(AllSeated(events)) ==> AllSeated(events)
    {
      if id !in events {
        return NotFound;
      }
      if events[id].organizer != caller {
        return Forbidden;
      }
      events := events - {id};
      log := log + [EventDeleted(id)];
      r := Removed;
    }

    /**
     * `POST /:id/attend`: toggles the caller's membership. A member is
     * removed at the first index; a non-member is appended unless the event is
     * full. On success the event is saved and one `attendeeUpdated` carrying
     * the new attendee count is broadcast after the save.
     */
    method Attend(id: EventId, caller: UserId) returns (r: Response)
      requires Valid()
      modifies this
      ensures Valid() && nextId == old(nextId)
      ensures id !in old(events) ==> r == NotFound && events == old(events) && log == old(log)
      ensures id in old(events) ==>
        var e := old(events)[id];
        var t := Attendance.Toggle(e.attendees, e.capacity, caller);
        if t.Full? then
          r == AtCapacity && events == old(events) && log == old(log)
        else
          var e' := e.(attendees := t.attendees);
          && r == Ok(e')
          && events == old(events)[id := e']
          && log == old(log) + [AttendeeUpdated(id, |e'.attendees|)]
      ensures old(AllSeated(events)) ==> AllSeated(events)
    {
      if id !in events {
        return NotFound;
      }
      var e := events[id];
      var full, attendees := ToggleAttendees(e.attendees, e.capacity, caller);
      if full {
        return AtCapacity;
      }
      Attendance.ToggleKeepsSeated(e.attendees, e.capacity, caller);
      e := e.(attendees := attendees);
      FileOver(events, nextId, e);
      if AllSeated(events) {
        SeatOne(events, id, e);
      }
      events := events[id := e];
      log := log + [AttendeeUpdated(id, |attendees|)];
      r := Ok(e);
    }
  }

  /** The body of a capacity-one meetup. */
  const MeetupBody: Fields := NoFields.(name := Some("Meetup"), description := Some("Monthly meetup"),
                                        date := Some(0), time := Some("18:00"), location := Some("Hall"),
                                        category := Some("tech"), capacity := Some(1))

  /** The meetup body is accepted and builds a document with no attendees and capacity 1. */
  lemma MeetupAccepted(organizer: UserId)
    ensures var d := Instantiate(MeetupBody, 0, organizer, 0);
      d.Some? && ValidEvent(d.value) && d.value.attendees == [] && d.value.capacity == 1
  {
    TrimFixpoint("Meetup");
    assert HasRequired(MeetupBody);
    assert Instantiate(MeetupBody, 0, organizer, 0) ==
      Some(Event(0, "Meetup", "Monthly meetup", 0, "18:00", "Hall", "tech", 1, None, organizer, [], 0));
  }

  /**
   * A capacity-one event seen through the routes: the first user gets the
   * seat and one broadcast with count 1; a second user is refused and nothing
   * more is broadcast.
   */
  method CapacityBoundary(organizer: UserId, a: UserId, b: UserId)
    returns (first: Response, second: Response, broadcasts: seq<Notification>)
    requires a != b
    ensures first.Ok? && first.event.attendees == [a]
    ensures second == AtCapacity
    ensures |broadcasts| == 2 && broadcasts[0].EventCreated? && broadcasts[1] == AttendeeUpdated(0, 1)
  {
    var store := new EventStore();
    MeetupAccepted(organizer);
    Attendance.CapacityOneBoundary(a, b);
    ghost var meetup := Instantiate(MeetupBody, 0, organizer, 0).value;
    var created := store.Create(organizer, MeetupBody, 0);
    assert store.events == map[0 := meetup];
    first := store.Attend(0, a);
    assert store.events[0].attendees == [a];
    second := store.Attend(0, b);
    broadcasts := store.log;
  }
}
