/**
 * The decisions of one event card (frontend/src/components/EventCard.jsx):
 * whether the user attends, whether the event is full, the state and label of
 * the attend and delete buttons, the guards of the two click handlers, the
 * category badge and the attendee count shown.
 */
module EventCard {
  import opened Wrappers
  import opened EventSchema
  import opened ClientTypes
  import Attendance

  /** `event.attendees?.includes(user?.id)`: false when either is absent. */
  predicate IsAttending(e: ClientEvent, user: Option<User>) {
    e.attendees.Some? && user.Some? && user.value.id in e.attendees.value
  }

  /** `event.attendees?.length >= event.capacity`: false when the list is absent. */
  predicate IsFullyBooked(e: ClientEvent) {
    e.attendees.Some? && |e.attendees.value| >= e.capacity
  }

  /** `event.attendees?.length || 0`. */
  function DisplayedCount(e: ClientEvent): nat {
    if e.attendees.Some? then |e.attendees.value| else 0
  }

  /** Background tones of the buttons and the badge. */
  datatype Tone = Red | Gray | Indigo | Blue | Green | Purple | Yellow

  // ---------------------------------------------------------------------------
  // The attend button (shown to non-organizers) and the delete button (organizers).
  // ---------------------------------------------------------------------------

  predicate ShowAttendButton(isOrganizer: bool) { !isOrganizer }

  predicate ShowDeleteButton(isOrganizer: bool) { isOrganizer }

  /** `disabled={loading || (isFullyBooked && !isAttending)}`. */
  predicate AttendDisabled(loading: bool, attending: bool, full: bool) {
    loading || (full && !attending)
  }

  /** The attend button's label: the first condition that holds decides. */
  function AttendLabel(loading: bool, attending: bool, full: bool): string {
    if loading then "Processing..."
    else if attending then "Cancel Attendance"
    else if full then "Fully Booked"
    else "Attend Event"
  }

  /** The attend button's tone: red to cancel, gray when full, indigo to attend. */
  function AttendTone(attending: bool, full: bool): Tone {
    if attending then Red else if full then Gray else Indigo
  }

  predicate DeleteDisabled(loading: bool) { loading }

  function DeleteLabel(loading: bool): string {
    if loading then "Deleting..." else "Delete Event"
  }

  /** `handleAttend` goes on to send the request only for a signed-in user with no request in flight. */
  predicate AttendProceeds(user: Option<User>, loading: bool) {
    user.Some? && !loading
  }

  /** `handleDelete` goes on only for the organizer, with no request in flight, once the user confirms. */
  predicate DeleteProceeds(isOrganizer: bool, loading: bool, confirmed: bool) {
    isOrganizer && !loading && confirmed
  }

  /** Exactly one of the two buttons is shown. */
  lemma ExactlyOneButton(isOrganizer: bool)
    ensures ShowAttendButton(isOrganizer) != ShowDeleteButton(isOrganizer)
  {
  }

  /** The label follows the priority loading, attending, full, otherwise. */
  lemma AttendLabelPriority(loading: bool, attending: bool, full: bool)
    ensures loading ==> AttendLabel(loading, attending, full) == "Processing..."
    ensures !loading && attending ==> AttendLabel(loading, attending, full) == "Cancel Attendance"
    ensures !loading && !attending && full ==> AttendLabel(loading, attending, full) == "Fully Booked"
    ensures !loading && !attending && !full ==> AttendLabel(loading, attending, full) == "Attend Event"
  {
  }

  /** The button is disabled exactly when its label reads "Processing..." or "Fully Booked". */
  lemma DisabledIffLabel(loading: bool, attending: bool, full: bool)
    ensures AttendDisabled(loading, attending, full) <==>
      AttendLabel(loading, attending, full) in {"Processing...", "Fully Booked"}
  {
  }

  /** With no request in flight, the attend button's tone matches its label: red to cancel, gray when full, indigo to attend. */
  lemma ToneMatchesLabel(attending: bool, full: bool)
    ensures AttendTone(attending, full) == Red <==> AttendLabel(false, attending, full) == "Cancel Attendance"
    ensures AttendTone(attending, full) == Gray <==> AttendLabel(false, attending, full) == "Fully Booked"
    ensures AttendTone(attending, full) == Indigo <==> AttendLabel(false, attending, full) == "Attend Event"
  {
  }

  /** The delete button is disabled exactly when its label reads "Deleting...", and then its handler does nothing. */
  lemma DeleteDisabledIffLabel(loading: bool, isOrganizer: bool, confirmed: bool)
    ensures DeleteDisabled(loading) <==> DeleteLabel(loading) == "Deleting..."
    ensures DeleteDisabled(loading) ==> !DeleteProceeds(isOrganizer, loading, confirmed)
  {
  }

  /** An attending user can always cancel, even on a full event, unless a request is in flight. */
  lemma AttendingNeverBlocked(loading: bool, full: bool)
    ensures AttendDisabled(loading, true, full) <==> loading
  {
  }

  /** A click on an enabled attend button by a signed-in user is not dropped by the guard. */
  lemma EnabledAttendProceeds(e: ClientEvent, user: Option<User>, loading: bool)
    requires user.Some?
    requires !AttendDisabled(loading, IsAttending(e, user), IsFullyBooked(e))
    ensures AttendProceeds(user, loading)
  {
  }

  /** Neither handler acts while a request is in flight. */
  lemma NoActionWhileLoading(user: Option<User>, isOrganizer: bool, confirmed: bool)
    ensures !AttendProceeds(user, true) && !DeleteProceeds(isOrganizer, true, confirmed)
  {
  }

  /**
   * On an event as the server sends it, with no request in flight, the attend
   * button is disabled exactly when the server's toggle would refuse the user
   * as over capacity.
   */
  lemma DisabledIffServerRefuses(e: Event, organizerName: Option<string>, user: User)
    ensures var c := Serialize(e, organizerName);
      AttendDisabled(false, IsAttending(c, Some(user)), IsFullyBooked(c)) <==>
      Attendance.Toggle(e.attendees, e.capacity, user.id).Full?
  {
  }

  /** After the server's toggle the card shows the user's new membership and the matching label. */
  lemma CardFollowsToggle(e: Event, organizerName: Option<string>, user: User)
    requires Attendance.Seated(e.attendees, e.capacity)
    requires !Attendance.Toggle(e.attendees, e.capacity, user.id).Full?
    ensures var t := Attendance.Toggle(e.attendees, e.capacity, user.id);
      var c := Serialize(e.(attendees := t.attendees), organizerName);
      && (IsAttending(c, Some(user)) <==> t.Joined?)
      && AttendLabel(false, IsAttending(c, Some(user)), IsFullyBooked(c)) != "Fully Booked"
  {
    if user.id in e.attendees {
      Attendance.RemoveFirstNoDuplicates(e.attendees, user.id);
    }
  }

  // ---------------------------------------------------------------------------
  // The category badge.
  // ---------------------------------------------------------------------------

  /** `toUpperCase` on one character, for the ASCII letters. */
  function ToUpper(c: char): (u: char)
    ensures 'a' <= c <= 'z' ==> 'A' <= u <= 'Z' && u as int == c as int - 32
    ensures !('a' <= c <= 'z') ==> u == c
  {
    if 'a' <= c <= 'z' then (c as int - 32) as char else c
  }

  /** `category.charAt(0).toUpperCase() + category.slice(1)`. */
  function BadgeText(category: string): (r: string)
    ensures |r| == |category|
    ensures category != [] ==> r[0] == ToUpper(category[0]) && r[1..] == category[1..]
  {
    if category == [] then [] else [ToUpper(category[0])] + category[1..]
  }

  /** The badge tone: one per named category, gray for any other value. */
  function BadgeTone(category: string): Tone {
    if category == "tech" then Blue
    else if category == "business" then Green
    else if category == "social" then Purple
    else if category == "education" then Yellow
    else Gray
  }

  /** The badge of each enum value. */
  lemma BadgeOfCategories()
    ensures BadgeText("general") == "General" && BadgeTone("general") == Gray
    ensures BadgeText("tech") == "Tech" && BadgeTone("tech") == Blue
    ensures BadgeText("business") == "Business" && BadgeTone("business") == Green
    ensures BadgeText("social") == "Social" && BadgeTone("social") == Purple
    ensures BadgeText("education") == "Education" && BadgeTone("education") == Yellow
  {
    assert ToUpper('g') == 'G' && "General" == ['G'] + "eneral";
    assert ToUpper('t') == 'T' && "Tech" == ['T'] + "ech";
    assert ToUpper('b') == 'B' && "Business" == ['B'] + "usiness";
    assert ToUpper('s') == 'S' && "Social" == ['S'] + "ocial";
    assert ToUpper('e') == 'E' && "Education" == ['E'] + "ducation";
  }

  /** Gray is the tone of exactly the values other than the four colored categories. */
  lemma GrayIffUncolored(category: string)
    ensures BadgeTone(category) == Gray <==> category !in {"tech", "business", "social", "education"}
  {
  }

  /** Capitalising an already capitalised badge changes nothing. */
  lemma BadgeTextIdempotent(category: string)
    ensures BadgeText(BadgeText(category)) == BadgeText(category)
  {
    if category != [] {
      assert BadgeText(category)[1..] == category[1..];
    }
  }

  /** An event without an attendee list shows 0 attendees, is neither attended nor full, and offers to attend. */
  lemma NoAttendeeList(e: ClientEvent, user: Option<User>)
    requires e.attendees.None?
    ensures DisplayedCount(e) == 0 && !IsAttending(e, user) && !IsFullyBooked(e)
    ensures AttendLabel(false, IsAttending(e, user), IsFullyBooked(e)) == "Attend Event"
  {
  }
}
