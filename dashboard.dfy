/**
 * The state transforms of the events dashboard
 * (frontend/src/pages/EventDashboard.jsx): the three realtime reducers over
 * the event list, the filter change, the query string sent to `GET /events`
 * and the organizer test passed to each card.
 */
module Dashboard {
  import opened Wrappers
  import opened EventSchema
  import opened ClientTypes
  import EventQuery
  import EventCard

  /** The identifiers of a list, position by position. */
  function Ids(s: seq<ClientEvent>): (r: seq<EventId>)
    ensures |r| == |s| && forall i :: 0 <= i < |s| ==> r[i] == s[i].id
  {
    if s == [] then [] else [s[0].id] + Ids(s[1..])
  }

  // ---------------------------------------------------------------------------
  // Realtime reducers.
  // ---------------------------------------------------------------------------

  /** `eventUpdated`: every element with the update's identifier is replaced by the update. */
  function ReplaceById(s: seq<ClientEvent>, updated: ClientEvent): (r: seq<ClientEvent>)
    ensures |r| == |s|
    ensures forall i :: 0 <= i < |s| ==> r[i] == if s[i].id == updated.id then updated else s[i]
  {
    if s == [] then []
    else [if s[0].id == updated.id then updated else s[0]] + ReplaceById(s[1..], updated)
  }

  /** `eventDeleted`: the elements with the given identifier are dropped. */
  function RemoveById(s: seq<ClientEvent>, id: EventId): (r: seq<ClientEvent>)
    ensures |r| <= |s|
  {
    if s == [] then []
    else if s[0].id == id then RemoveById(s[1..], id)
    else [s[0]] + RemoveById(s[1..], id)
  }

  /** What removal keeps: exactly the elements whose identifier differs. */
  lemma {:induction false} RemoveKeepsOthers(s: seq<ClientEvent>, id: EventId)
    ensures forall e :: e in RemoveById(s, id) <==> e in s && e.id != id
  {
    if s != [] {
      RemoveKeepsOthers(s[1..], id);
      assert s == [s[0]] + s[1..];
    }
  }

  /** `attendeeUpdated`: the matching elements get the new `attendeeCount`; nothing else changes. */
  function SetAttendeeCount(s: seq<ClientEvent>, id: EventId, count: int): (r: seq<ClientEvent>)
    ensures |r| == |s|
    ensures forall i :: 0 <= i < |s| ==>
      r[i] == if s[i].id == id then s[i].(attendeeCount := Some(count)) else s[i]
  {
    if s == [] then []
    else [if s[0].id == id then s[0].(attendeeCount := Some(count)) else s[0]] + SetAttendeeCount(s[1..], id, count)
  }

  /** Replacing keeps every position's identifier, so the list's identifiers do not change. */
  lemma ReplaceKeepsIds(s: seq<ClientEvent>, updated: ClientEvent)
    ensures Ids(ReplaceById(s, updated)) == Ids(s)
  {
  }

  /** Applying the same update twice is applying it once. */
  lemma ReplaceIdempotent(s: seq<ClientEvent>, updated: ClientEvent)
    ensures ReplaceById(ReplaceById(s, updated), updated) == ReplaceById(s, updated)
  {
  }

  /** An update for an event not in the list leaves the list alone. */
  lemma ReplaceAbsent(s: seq<ClientEvent>, updated: ClientEvent)
    requires updated.id !in Ids(s)
    ensures ReplaceById(s, updated) == s
  {
    assert forall i :: 0 <= i < |s| ==> Ids(s)[i] == s[i].id;
  }

  /** Removal works element by element: the kept elements stay in their order. */
  lemma {:induction false} RemoveDistributes(a: seq<ClientEvent>, b: seq<ClientEvent>, id: EventId)
    ensures RemoveById(a + b, id) == RemoveById(a, id) + RemoveById(b, id)
  {
    if a == [] {
      assert a + b == b;
    } else {
      assert (a + b)[0] == a[0] && (a + b)[1..] == a[1..] + b;
      RemoveDistributes(a[1..], b, id);
    }
  }

  /** Exactly the matching elements go: the length drops by the number of occurrences of the identifier. */
  lemma {:induction false} RemoveCount(s: seq<ClientEvent>, id: EventId)
    ensures |RemoveById(s, id)| == |s| - multiset(Ids(s))[id]
  {
    if s != [] {
      RemoveCount(s[1..], id);
      assert Ids(s) == [s[0].id] + Ids(s[1..]);
    }
  }

  /** A list without the identifier is left alone. */
  lemma {:induction false} RemoveAbsent(s: seq<ClientEvent>, id: EventId)
    requires id !in Ids(s)
    ensures RemoveById(s, id) == s
  {
    if s != [] {
      assert Ids(s)[0] == s[0].id;
      assert Ids(s[1..]) == Ids(s)[1..];
      RemoveAbsent(s[1..], id);
    }
  }

  /** Deleting twice is deleting once. */
  lemma RemoveIdempotent(s: seq<ClientEvent>, id: EventId)
    ensures RemoveById(RemoveById(s, id), id) == RemoveById(s, id)
  {
    RemoveKeepsOthers(s, id);
    RemoveAbsent(RemoveById(s, id), id);
  }

  /** The realtime count leaves each element's attendee list, and so its identifier list, untouched. */
  lemma AttendeeUpdateKeepsAttendees(s: seq<ClientEvent>, id: EventId, count: int)
    ensures var r := SetAttendeeCount(s, id, count);
      Ids(r) == Ids(s) && forall i :: 0 <= i < |s| ==> r[i].attendees == s[i].attendees
  {
  }

  // ---------------------------------------------------------------------------
  // Filters and the query string.
  // ---------------------------------------------------------------------------

  datatype Filters = Filters(category: string, date: string, search: string)

  /** The `name` attribute of the three filter inputs. */
  datatype FilterKey = CategoryKey | DateKey | SearchKey

  const InitialFilters: Filters := Filters("all", "upcoming", "")

  function Get(f: Filters, key: FilterKey): string {
    match key
    case CategoryKey => f.category
    case DateKey => f.date
    case SearchKey => f.search
  }

  /** `handleFilterChange`: the named filter takes the new value, the others keep theirs. */
  function ChangeFilter(f: Filters, key: FilterKey, value: string): (r: Filters)
    ensures Get(r, key) == value
    ensures forall k :: k != key ==> Get(r, k) == Get(f, k)
  {
    match key
    case CategoryKey => f.(category := value)
    case DateKey => f.(date := value)
    case SearchKey => f.(search := value)
  }

  /** The query parameters `fetchEvents` sends. */
  datatype QueryParams = QueryParams(category: string, date: string, search: string)

  /** Category `all` is sent as the empty string; everything else is sent verbatim. */
  function ToQueryParams(f: Filters): (p: QueryParams)
    ensures p.category == "" <==> f.category in {"all", ""}
    ensures f.category != "all" ==> p.category == f.category
    ensures p.date == f.date && p.search == f.search
  {
    QueryParams(if f.category != "all" then f.category else "", f.date, f.search)
  }

  /**
   * From the dashboard's filters to the events the server selects: `all`
   * categories and `all` dates leave those parts unconstrained, and a search
   * constrains only when it is non-empty.
   */
  lemma DashboardSelects(f: Filters, now: int, e: Event, matches: (string, string) -> bool)
    ensures var p := ToQueryParams(f);
      EventQuery.Selects(EventQuery.BuildQuery(p.category, p.date, p.search, now), e, matches) <==>
      && (f.category in {"all", ""} || e.category == f.category)
      && (f.date == "upcoming" ==> e.date >= now)
      && (f.date == "past" ==> e.date < now)
      && (f.search != "" ==> matches(f.search, e.name) || matches(f.search, e.description))
  {
    var p := ToQueryParams(f);
    EventQuery.SelectsIff(p.category, p.date, p.search, now, e, matches);
  }

  /** The dashboard opens on the upcoming events of every category, unsearched. */
  lemma InitialSelection(now: int, e: Event, matches: (string, string) -> bool)
    ensures ToQueryParams(InitialFilters) == QueryParams("", "upcoming", "")
    ensures var p := ToQueryParams(InitialFilters);
      EventQuery.Selects(EventQuery.BuildQuery(p.category, p.date, p.search, now), e, matches) <==> e.date >= now
  {
    DashboardSelects(InitialFilters, now, e, matches);
  }

  // ---------------------------------------------------------------------------
  // The organizer test.
  // ---------------------------------------------------------------------------

  /** `event.organizer === user.id` as written: a populated organizer object never equals a string. */
  predicate IsOrganizerAsWritten(e: ClientEvent, user: User) {
    e.organizer == OrganizerRef(user.id)
  }

  /** The comparison the dashboard means: the organizer's identifier, populated or not. */
  predicate IsOrganizer(e: ClientEvent, user: User) {
    e.organizer.id == user.id
  }

  /**
   * Every event in the list `GET /events` returns has its organizer populated,
   * so the test as written is false for all of them, the organizer included.
   */
  lemma ListedEventsNeverOrganized(e: Event, organizerName: string, user: User)
    requires e.organizer == user.id
    ensures !IsOrganizerAsWritten(Serialize(e, Some(organizerName)), user)
    ensures IsOrganizer(Serialize(e, Some(organizerName)), user)
  {
  }

  /** The corrected test agrees with the server's organizer check whatever the JSON shape. */
  lemma IsOrganizerMatchesServer(e: Event, organizerName: Option<string>, user: User)
    ensures IsOrganizer(Serialize(e, organizerName), user) <==> e.organizer == user.id
    ensures organizerName.None? ==>
      (IsOrganizerAsWritten(Serialize(e, organizerName), user) <==> e.organizer == user.id)
  {
  }

  // ---------------------------------------------------------------------------
  // The realtime attendee count.
  // ---------------------------------------------------------------------------

  /** The card's count as written ignores `attendeeCount`: an `attendeeUpdated` message changes nothing shown. */
  lemma LiveCountNotShown(s: seq<ClientEvent>, id: EventId, count: int, i: nat)
    requires i < |s|
    ensures EventCard.DisplayedCount(SetAttendeeCount(s, id, count)[i]) == EventCard.DisplayedCount(s[i])
  {
  }

  /** A concrete case: one user joins an empty event elsewhere; the card still shows 0. */
  lemma LiveCountCounterexample(e: ClientEvent)
    requires e.attendees == Some([])
    ensures var r := SetAttendeeCount([e], e.id, 1);
      r[0].attendeeCount == Some(1) && EventCard.DisplayedCount(r[0]) == 0
  {
  }

  /** The count the card means to show: the live count once one has arrived, the list length otherwise. */
  function LiveCount(e: ClientEvent): int {
    if e.attendeeCount.Some? then e.attendeeCount.value else EventCard.DisplayedCount(e)
  }

  /** With the corrected count, an `attendeeUpdated` message shows its count on the matching cards only. */
  lemma LiveCountShown(s: seq<ClientEvent>, id: EventId, count: int, i: nat)
    requires i < |s|
    ensures var r := SetAttendeeCount(s, id, count);
      LiveCount(r[i]) == if s[i].id == id then count else LiveCount(s[i])
  {
  }

  /** The corrected count agrees with the list length on an event as the server sends it. */
  lemma LiveCountOfServedEvent(e: Event, organizerName: Option<string>)
    ensures LiveCount(Serialize(e, organizerName)) == |e.attendees|
  {
  }
}
