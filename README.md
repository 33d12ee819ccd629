# Event attendance: a Dafny model

This project models the core of a small event-management web application.

On the server side it covers:

- the event document, with its validators and the `trim` setter on `name`;
- the four mutating routes (create, update, delete, attend toggle);
- the filter built for the event listing;
- the realtime broadcasts each route emits.

On the client side it covers:

- the dashboard's reducers for realtime messages;
- the filter state and the query string sent to the server;
- the organizer test;
- the decisions an event card makes: attendance, full booking, the two buttons, the click guards, the category badge and the attendee count.

Modules, one per concern of the source:

- `Wrappers`: the `Option` type.
- `EventSchema` (`server/models/Event.js`):
  - the `Event` document and the `Fields` a request body may carry;
  - JavaScript `trim`, and the validators run on save;
  - `Instantiate`, which builds a document from a body.
- `Attendance` (`server/routes/events.js:122-132`): the toggle rule on the attendee list. JavaScript `indexOf`, and removal of the first occurrence. `Toggle` is the reference definition: the route's in-place edit is proved against it, and the capacity and no-duplicate invariants are proved about it.
- `EventQuery` (`server/routes/events.js:7-37`): the filter document built from `category`, `date` and `search`, and the events it selects.
- `EventRoutes` (`server/routes/events.js:40-147`): the class `EventStore`, holding:
  - a map from event identifier to document;
  - the log of broadcasts;
  - the next fresh identifier.

  Its methods `Create`, `Update`, `Delete` and `Attend` mirror the four routes: the same checks, in the same order, with the same responses. `ToggleAttendees` is the route's `indexOf` / `push` / `splice` edit.
- `ClientTypes`: the JSON an event arrives as in the browser. `organizer` is either a bare identifier or a populated object, and `attendeeCount` may be added.
- `EventCard` (`frontend/src/components/EventCard.jsx`) and `Dashboard` (`frontend/src/pages/EventDashboard.jsx`): the client-side logic, as functions and lemmas.

The store invariant, `EventStore.Valid`, says three things:

- every document is filed under its own identifier;
- that identifier is below the next fresh one;
- the document passed validation and has a trimmed name.

The attendance invariant, `AllSeated`, says every event is within capacity and has no duplicate attendee. `Attend` and `Delete` preserve it, and so does `Create` when the body carries no `attendees`. `Update` does not preserve it: `Object.assign` copies any field of the body, including `capacity` and `attendees`, and the validators do not look at the attendee list. `EventRoutes.PatchCanOverbook` proves this.

The model follows the code as written, including where a careful design would differ:

- **Race on reads and writes.** The attend route is a plain read-modify-write: it reads at `server/routes/events.js:116` and saves at `:135`, with no conditional write and no lock. The model runs each request as one atomic step on the store. It does not claim the source is free of the lost-update race between two concurrent joins.
- **No separate validation error.** A body that fails validation gets the route's catch-all 500 `Server error` (`ServerError`).
- **Create only conditionally keeps the capacity invariant.** A body on `POST /` may supply `attendees`, so creating preserves `AllSeated` only when the body does not.

## Model

| member | source | states |
|---|---|---|
| EventSchema.Trim | server/models/Event.js:4 | the stored name neither starts nor ends with whitespace; it is the input with its leading whitespace dropped and then only whitespace dropped from the end |
| EventSchema.TrimStart | server/models/Event.js:4 | the result is a suffix of the input, only whitespace was dropped, and it does not start with whitespace |
| EventSchema.TrimEnd | server/models/Event.js:4 | the result is a prefix of the input, only whitespace was dropped, and it does not end with whitespace |
| EventSchema.TrimFixpoint | server/models/Event.js:4 | a name that is already trimmed is stored unchanged |
| EventSchema.TrimIdempotent | server/models/Event.js:4 | trimming twice equals trimming once |
| EventSchema.TrimRemovesFrame | server/models/Event.js:4 | trimming removes exactly the whitespace around a trimmed string and nothing inside it |
| EventSchema.BlankNameRejected | server/models/Event.js:4 | any name consisting only of whitespace is empty once trimmed, so the required check rejects it |
| EventSchema.CategoryAndCapacityRules | server/models/Event.js:9-14 | with the other fields valid, a category passes iff it is one of the five enum values, and a capacity passes iff it is at least 1 |
| EventSchema.ValidIgnoresOptionalParts | server/models/Event.js:15-22 | validity does not depend on imageUrl (optional), organizer, attendees or createdAt |
| EventSchema.ValidEvent | server/models/Event.js:4-14 | definition without ensures: the required strings are non-empty, the category is an enum value, the capacity is at least 1; its properties are stated by `CategoryAndCapacityRules`, `ValidIgnoresOptionalParts`, `BlankNameRejected` and `AcceptedBody` |
| EventSchema.Instantiate | server/models/Event.js:3-23 | a document exists iff every required field is present; it gets the given identifier and organizer, the trimmed body name, the body's description, date, time, location, category, capacity and imageUrl, attendees defaulting to the empty list, and createdAt defaulting to the request time |
| EventSchema.AcceptedBody | server/routes/events.js:42-47 | a body is accepted iff every required field is present, the name is not empty once trimmed, the other required strings are non-empty, the category is an enum value and the capacity is at least 1 |
| EventSchema.InstantiateIgnoresBodyOrganizer | server/routes/events.js:42-45 | an organizer supplied in the body has no effect: the caller is always the organizer |
| Attendance.IndexOf | server/routes/events.js:122 | -1 iff the user is absent; otherwise the index of an occurrence with no earlier occurrence |
| Attendance.RemoveFirst | server/routes/events.js:132 | removing a member shortens the list by one; removing a non-member changes nothing |
| Attendance.RemoveFirstCounts | server/routes/events.js:132 | removal takes away exactly one occurrence of the member and nothing else (multiset difference) |
| Attendance.SpliceAtIndexOf | server/routes/events.js:122-132 | `splice(indexOf(user), 1)` yields exactly the list without the first occurrence |
| Attendance.RemoveFirstNoDuplicates | server/routes/events.js:132 | on a list without duplicates, removal keeps it duplicate-free and the user is absent afterwards |
| Attendance.ToggleKeepsSeated | server/routes/events.js:122-132 | a successful toggle preserves both the capacity bound and the absence of duplicates |
| Attendance.Toggle | server/routes/events.js:122-132 | definition without ensures: a member leaves by removal of the first occurrence, a non-member joins at the end below capacity, otherwise full; its properties are stated by `JoinAppends`, `JoinRefusedIffFull`, `LeaveAlwaysSucceeds`, `ToggleKeepsSeated` and the toggle-twice lemmas, and `EventRoutes.ToggleAttendees` is proved against it |
| Attendance.JoinAppends | server/routes/events.js:124-129 | an absent user below capacity joins: the list grows by one, every earlier entry is kept and the user is the last entry |
| Attendance.JoinRefusedIffFull | server/routes/events.js:124-128 | an absent user is refused iff the list has reached the capacity |
| Attendance.LeaveAlwaysSucceeds | server/routes/events.js:130-132 | a present user always leaves, whatever the capacity: the entry at the first index is removed, the length drops by one, and the multiset loses that one entry |
| Attendance.ToggleTwiceFromAbsent | server/routes/events.js:122-132 | join followed by toggle restores the exact original list |
| Attendance.ToggleTwiceFromPresent | server/routes/events.js:122-132 | on a seated list (within capacity, no duplicates), leave followed by toggle re-appends the user at the end of the shortened list |
| Attendance.ToggleTwiceRestoresMembership | server/routes/events.js:122-132 | on a seated list (within capacity, no duplicates), two successive toggles by one user restore that user's membership, and the second is never refused |
| Attendance.CapacityOneBoundary | server/routes/events.js:124-129 | at capacity 1, the first user gets the seat and a second user is refused |
| EventQuery.BuildQuery | server/routes/events.js:10-27 | definition without ensures: the filter built field by field from the query parameters; its meaning is stated by `SelectsIff`, `AllCategoriesUnfiltered` and `UpcomingPastPartition` |
| EventQuery.Selects | server/routes/events.js:29 | definition without ensures: the store selects an event when every present part of the filter holds; stated on the raw parameters by `SelectsIff` |
| EventQuery.SelectsIff | server/routes/events.js:9-27 | an event is selected iff the category matches (unless it is empty or `all`), `upcoming` / `past` bound the date by the request time from either side, and a non-empty search matches the name or the description |
| EventQuery.AllCategoriesUnfiltered | server/routes/events.js:12-14 | category `all` and an absent category give the same, unconstrained filter |
| EventQuery.UpcomingPastPartition | server/routes/events.js:16-20 | `upcoming` and `past` split what `all` selects into two disjoint parts |
| EventRoutes.Status | server/routes/events.js:40-147 | a response is 2xx iff it is a success (200 event, 201 created, 200 removed) |
| EventRoutes.ApplyPatch | server/routes/events.js:74 | `Object.assign` keeps the identifier, and a trimmed name stays trimmed; what it copies is stated by `PatchFrame` and `PatchIdempotent` |
| EventRoutes.PatchFrame | server/routes/events.js:74 | every field the body carries takes the body's value (the name through `trim`), and every field it omits keeps the document's value |
| EventRoutes.PatchIdempotent | server/routes/events.js:74 | assigning the same body twice equals assigning it once |
| EventRoutes.ApplyEmptyPatch | server/routes/events.js:74 | an empty body changes nothing |
| EventRoutes.PatchCanOverbook | server/routes/events.js:74-75 | a body that lowers the capacity below the attendee count passes validation and leaves the event over capacity |
| EventRoutes.ToggleAttendees | server/routes/events.js:122-133 | the in-place `indexOf` / `push` / `splice` edit refuses exactly when `Toggle` reports full, and otherwise gives `Toggle`'s list |
| EventRoutes.EventStore.Create | server/routes/events.js:40-59 | created iff the body has every required field and passes validation. On success: the document is filed under a fresh identifier, the caller is the organizer, and `eventCreated` is broadcast. Otherwise: a 500 with nothing changed. Validity is preserved, and seating is too when the body carries no attendees |
| EventRoutes.EventStore.Update | server/routes/events.js:62-87 | unknown identifier gives 404; a non-organizer gives 403; an invalid result gives 500. Otherwise the patched document is saved and `eventUpdated` broadcast. Every failure changes nothing and emits nothing |
| EventRoutes.EventStore.Delete | server/routes/events.js:90-111 | unknown identifier gives 404; a non-organizer gives 403. Otherwise the event is removed and its identifier broadcast. Failures change nothing; validity and seating are preserved |
| EventRoutes.EventStore.Attend | server/routes/events.js:114-147 | unknown identifier gives 404; a full event gives 400 with nothing saved or emitted. Otherwise the toggled list is saved, exactly one `attendeeUpdated` carrying the new length is broadcast, and seating is preserved |
| EventRoutes.CapacityBoundary | server/routes/events.js:122-141 | through the routes, a capacity-1 event seats the first user with one broadcast of count 1 and refuses the second user without a further broadcast |
| ClientTypes.Serialize | server/routes/events.js:29-33 | the JSON keeps the identifier and the attendee list and names the same organizer; the organizer is populated iff a name was looked up |
| EventCard.IsAttending | frontend/src/components/EventCard.jsx:12 | definition without ensures: the user's id is in a present attendee list; stated by `NoAttendeeList`, `DisabledIffServerRefuses` and `CardFollowsToggle` |
| EventCard.IsFullyBooked | frontend/src/components/EventCard.jsx:13 | definition without ensures: a present attendee list has reached the capacity; stated by `NoAttendeeList` and `DisabledIffServerRefuses` |
| EventCard.DisplayedCount | frontend/src/components/EventCard.jsx:125 | definition without ensures: the attendee list's length, or 0 when absent; stated by `NoAttendeeList`, `Dashboard.LiveCountNotShown` and `Dashboard.LiveCountCounterexample` |
| EventCard.AttendDisabled | frontend/src/components/EventCard.jsx:141 | definition without ensures: `loading \|\| (isFullyBooked && !isAttending)`; stated by `DisabledIffLabel`, `AttendingNeverBlocked`, `EnabledAttendProceeds` and `DisabledIffServerRefuses` |
| EventCard.AttendLabel | frontend/src/components/EventCard.jsx:153 | definition without ensures: the label ternary chain; stated by `AttendLabelPriority`, `DisabledIffLabel` and `ToneMatchesLabel` |
| EventCard.AttendProceeds | frontend/src/components/EventCard.jsx:16 | definition without ensures: the guard of `handleAttend`; stated by `EnabledAttendProceeds` and `NoActionWhileLoading` |
| EventCard.DeleteProceeds | frontend/src/components/EventCard.jsx:47-49 | definition without ensures: the guards of `handleDelete`, with the confirmation as a parameter; stated by `NoActionWhileLoading` and `DeleteDisabledIffLabel` |
| EventCard.BadgeTone | frontend/src/components/EventCard.jsx:86-90 | definition without ensures: the badge tone chain; stated by `BadgeOfCategories` and `GrayIffUncolored` |
| EventCard.ToneMatchesLabel | frontend/src/components/EventCard.jsx:144-153 | with no request in flight, the attend button is red iff it reads "Cancel Attendance", gray iff "Fully Booked", indigo iff "Attend Event" |
| EventCard.DeleteDisabledIffLabel | frontend/src/components/EventCard.jsx:160-163 | the delete button is disabled iff it reads "Deleting...", and then its handler does nothing |
| EventCard.ShowAttendButton | frontend/src/components/EventCard.jsx:138 | definition without ensures: the attend button is shown to non-organizers; stated by `ExactlyOneButton` |
| EventCard.ShowDeleteButton | frontend/src/components/EventCard.jsx:157 | definition without ensures: the delete button is shown to organizers; stated by `ExactlyOneButton` |
| EventCard.AttendTone | frontend/src/components/EventCard.jsx:144-148 | definition without ensures: red to cancel, gray when full, indigo otherwise; stated by `ToneMatchesLabel` |
| EventCard.DeleteDisabled | frontend/src/components/EventCard.jsx:160 | definition without ensures: disabled while a request is in flight; stated by `DeleteDisabledIffLabel` |
| EventCard.DeleteLabel | frontend/src/components/EventCard.jsx:163 | definition without ensures: "Deleting..." while in flight, "Delete Event" otherwise; stated by `DeleteDisabledIffLabel` |
| EventCard.ExactlyOneButton | frontend/src/components/EventCard.jsx:138-157 | exactly one of the attend and delete buttons is shown |
| EventCard.AttendLabelPriority | frontend/src/components/EventCard.jsx:153 | the label follows the order loading, attending, full, otherwise |
| EventCard.DisabledIffLabel | frontend/src/components/EventCard.jsx:141-153 | the attend button is disabled iff its label is "Processing..." or "Fully Booked" |
| EventCard.AttendingNeverBlocked | frontend/src/components/EventCard.jsx:141 | an attending user's button is disabled iff a request is in flight, even on a full event |
| EventCard.EnabledAttendProceeds | frontend/src/components/EventCard.jsx:16 | a signed-in user's click on an enabled attend button passes the guard |
| EventCard.NoActionWhileLoading | frontend/src/components/EventCard.jsx:16-47 | neither click handler proceeds while a request is in flight |
| EventCard.DisabledIffServerRefuses | frontend/src/components/EventCard.jsx:12-13 | on an event as served, with nothing in flight, the button is disabled iff the server's toggle would refuse the user as over capacity |
| EventCard.CardFollowsToggle | frontend/src/components/EventCard.jsx:12-13 | after a successful toggle on a seated event, the card shows the user attending iff the user joined, and never "Fully Booked" |
| EventCard.ToUpper | frontend/src/components/EventCard.jsx:92 | ASCII lower-case letters map to upper case; every other character is kept |
| EventCard.BadgeText | frontend/src/components/EventCard.jsx:92 | same length, the first character upper-cased, the rest unchanged |
| EventCard.BadgeOfCategories | frontend/src/components/EventCard.jsx:84-92 | the badge text and tone of each of the five enum values |
| EventCard.GrayIffUncolored | frontend/src/components/EventCard.jsx:86-90 | the tone is gray iff the category is not one of tech, business, social, education |
| EventCard.BadgeTextIdempotent | frontend/src/components/EventCard.jsx:92 | capitalising an already capitalised badge changes nothing |
| EventCard.NoAttendeeList | frontend/src/components/EventCard.jsx:12-13 | without an attendee list the card shows 0, is neither attended nor full, and offers "Attend Event" |
| Dashboard.ReplaceById | frontend/src/pages/EventDashboard.jsx:68-74 | same length; every element with the update's identifier becomes the update and every other is unchanged |
| Dashboard.ReplaceKeepsIds | frontend/src/pages/EventDashboard.jsx:68-74 | the list's identifiers, and so its order, are unchanged |
| Dashboard.ReplaceIdempotent | frontend/src/pages/EventDashboard.jsx:68-74 | applying the same update twice equals applying it once |
| Dashboard.ReplaceAbsent | frontend/src/pages/EventDashboard.jsx:68-74 | an update for an event not in the list leaves it unchanged |
| Dashboard.RemoveById | frontend/src/pages/EventDashboard.jsx:76-78 | the list never grows |
| Dashboard.RemoveKeepsOthers | frontend/src/pages/EventDashboard.jsx:76-78 | an element remains iff it was in the list and has a different identifier |
| Dashboard.RemoveDistributes | frontend/src/pages/EventDashboard.jsx:76-78 | removal distributes over concatenation, so the kept elements stay in order |
| Dashboard.RemoveCount | frontend/src/pages/EventDashboard.jsx:76-78 | the length drops by exactly the number of elements with the identifier |
| Dashboard.RemoveAbsent | frontend/src/pages/EventDashboard.jsx:76-78 | a list without the identifier is unchanged |
| Dashboard.RemoveIdempotent | frontend/src/pages/EventDashboard.jsx:76-78 | deleting twice equals deleting once |
| Dashboard.SetAttendeeCount | frontend/src/pages/EventDashboard.jsx:80-88 | same length; matching elements get the new `attendeeCount` with every other field kept, and the others are unchanged |
| Dashboard.AttendeeUpdateKeepsAttendees | frontend/src/pages/EventDashboard.jsx:80-88 | identifiers and every attendee list are unchanged |
| Dashboard.ChangeFilter | frontend/src/pages/EventDashboard.jsx:90-96 | the named filter takes the new value and the other two keep theirs |
| Dashboard.ToQueryParams | frontend/src/pages/EventDashboard.jsx:42-46 | category `all` is sent as the empty string and any other category verbatim; date and search pass through |
| Dashboard.InitialFilters | frontend/src/pages/EventDashboard.jsx:12-16 | definition without ensures: category `all`, date `upcoming`, empty search; stated by `InitialSelection` |
| Dashboard.InitialSelection | frontend/src/pages/EventDashboard.jsx:12-16 | the initial filters send category "", date `upcoming` and an empty search, which select exactly the events dated at or after the request time |
| Dashboard.DashboardSelects | frontend/src/pages/EventDashboard.jsx:42-46 | from the dashboard's filters to the events the server selects, stated as an iff |
| Dashboard.IsOrganizerAsWritten | frontend/src/pages/EventDashboard.jsx:164 | definition without ensures: `event.organizer === user.id`, true only for a bare identifier equal to the user's; stated by `ListedEventsNeverOrganized` and `IsOrganizerMatchesServer` |
| Dashboard.IsOrganizer | frontend/src/pages/EventDashboard.jsx:164 | definition without ensures: the corrected organizer test, comparing the organizer's identifier populated or not; stated by `IsOrganizerMatchesServer` and `ListedEventsNeverOrganized` |
| Dashboard.ListedEventsNeverOrganized | frontend/src/pages/EventDashboard.jsx:164 | on a listed event (organizer populated), the test as written is false even for the organizer, while the corrected test is true |
| Dashboard.IsOrganizerMatchesServer | frontend/src/pages/EventDashboard.jsx:164 | the corrected test holds iff the server's organizer check passes, whatever the JSON shape; the test as written agrees only on an unpopulated organizer |
| Dashboard.LiveCountNotShown | frontend/src/components/EventCard.jsx:125 | the count shown as written is unchanged by an `attendeeUpdated` message |
| Dashboard.LiveCountCounterexample | frontend/src/components/EventCard.jsx:125 | an empty event updated to count 1 still shows 0 |
| Dashboard.LiveCount | frontend/src/components/EventCard.jsx:125 | definition without ensures: the corrected count, the live `attendeeCount` once one has arrived and the list length otherwise; stated by `LiveCountShown` and `LiveCountOfServedEvent` |
| Dashboard.LiveCountShown | frontend/src/pages/EventDashboard.jsx:80-88 | with the corrected count, a message shows its count on the matching cards and no others |
| Dashboard.LiveCountOfServedEvent | frontend/src/components/EventCard.jsx:125 | on an event as served, the corrected count equals the length of its attendee list |

## Left out

- Concurrency: two requests interleaving between `findById` and `save` (`server/routes/events.js:116`, `:135`). The source admits the lost-update race and the model does not rule it out. Each request is one atomic step.
- Authentication: the `auth` middleware is not part of this model, so neither is the 401 path. The caller's identifier is a parameter.
- The `$regex` search (`server/routes/events.js:22-27`): this is the parameter `matches(pattern, text)`, which carries no assumption about case-insensitive regular expressions.
- Database sorting by date and `populate` (`server/routes/events.js:29-31`): the listing's order is not modelled. Population appears only as the JSON shape (`ClientTypes.Serialize`).
- Wall-clock time: `new Date()` and `Date.now` are the integer parameter `now`.
- Mongoose type casting: a body value of the wrong type, such as a non-numeric capacity, and non-integer numbers are not modelled. Fields are typed, and capacity is an integer.
- Body keys outside the schema, `_id`, and `null` values in a body are not modelled.
- Storage failures other than validation: database errors and lost connections, which the route also answers with a 500.
- The ObjectId: event identifiers are natural numbers drawn from a counter, and user identifiers are strings.
- EventCard.ToUpper: covers the ASCII letters only and leaves every other character unchanged. JavaScript's `toUpperCase` also maps non-ASCII letters, which needs a Unicode case table.
- Fetching, sockets and effects: the fetch calls, the socket subscription (`useEffect`), the loading and error state around the click handlers, and `window.confirm`. The model keeps only the guard clauses, with the confirmation as a parameter.
- Rendering: markup, styling and date formatting with `date-fns`.
- URL encoding of the query string.
- The other files: the authentication routes, upload, server wiring, the contexts and the other pages are not part of this model.
- The null user at `frontend/src/pages/EventDashboard.jsx:164`: `user.id` throws when nobody is signed in, and the model always has a user there.

## Findings

| source | as written | input that shows it | evidently intended | confidence | as-written member | corrected member |
|---|---|---|---|---|---|---|
| frontend/src/pages/EventDashboard.jsx:164 | `isOrganizer={event.organizer === user.id}` compares the organizer field with an identifier string | any event in the `GET /events` list whose organizer is the signed-in user. The list populates `organizer` into an object (server/routes/events.js:30), which never equals a string, so the organizer gets the attend button instead of the delete button | compare the organizer's identifier, populated or not | not executed | Dashboard.ListedEventsNeverOrganized | Dashboard.IsOrganizerMatchesServer |
| frontend/src/components/EventCard.jsx:125 | the card shows `event.attendees?.length \|\| 0` | an event with no attendees receives `attendeeUpdated` with count 1. The dashboard stores `attendeeCount` (EventDashboard.jsx:80-88), but the card still shows 0 | show the live `attendeeCount` once one has arrived | not executed | Dashboard.LiveCountCounterexample | Dashboard.LiveCountShown |
