/**
 * The event objects the browser holds: the JSON the server sends,
 * with `organizer` either a bare identifier or, where the server populated it,
 * an object carrying the organizer's name, and the `attendeeCount` that the
 * dashboard adds on a realtime `attendeeUpdated` message.
 */
module ClientTypes {
  import opened Wrappers
  import opened EventSchema

  /** The JSON value of `organizer`. */
  datatype OrganizerField = OrganizerRef(id: UserId) | PopulatedOrganizer(id: UserId, name: string)

  /** An event as the browser holds it; `attendees` and `attendeeCount` may be absent. */
  datatype ClientEvent = ClientEvent(
    id: EventId,
    name: string,
    description: string,
    date: int,
    time: string,
    location: string,
    category: string,
    capacity: int,
    imageUrl: Option<string>,
    organizer: OrganizerField,
    attendees: Option<seq<UserId>>,
    attendeeCount: Option<int>)

  /** The signed-in user as the browser holds it. */
  datatype User = User(id: UserId, name: string)

  /**
   * The JSON the server sends for a stored event: `organizer` is populated
   * with the given name when the route populates it, a bare identifier otherwise.
   */
  function Serialize(e: Event, organizerName: Option<string>): (c: ClientEvent)
    ensures c.id == e.id && c.attendees == Some(e.attendees) && c.attendeeCount.None?
    ensures c.organizer.id == e.organizer
    ensures c.organizer.PopulatedOrganizer? <==> organizerName.Some?
  {
    ClientEvent(
      e.id, e.name, e.description, e.date, e.time, e.location, e.category, e.capacity, e.imageUrl,
      if organizerName.Some? then PopulatedOrganizer(e.organizer, organizerName.value) else OrganizerRef(e.organizer),
      Some(e.attendees), None)
  }
}
