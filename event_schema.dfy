/**
 * The event document (server/models/Event.js): its fields, the validators the
 * document store runs before every save, the `trim` setter on `name`, and the
 * defaults applied when a document is built from a request body.
 */
module EventSchema {
  import opened Wrappers

  /** Event identifiers are assigned by the store; user identifiers are strings. */
  type EventId = nat
  type UserId = string

  /** The five values the `category` enum admits. */
  const Categories: set<string> := {"general", "tech", "business", "social", "education"}

  /** A stored event document. Dates and timestamps are integers (milliseconds). */
  datatype Event = Event(
    id: EventId,
    name: string,
    description: string,
    date: int,
    time: string,
    location: string,
    category: string,
    capacity: int,
    imageUrl: Option<string>,
    organizer: UserId,
    attendees: seq<UserId>,
    createdAt: int)

  /** The fields a request body may carry; each may be absent. */
  datatype Fields = Fields(
    name: Option<string>,
    description: Option<string>,
    date: Option<int>,
    time: Option<string>,
    location: Option<string>,
    category: Option<string>,
    capacity: Option<int>,
    imageUrl: Option<string>,
    organizer: Option<UserId>,
    attendees: Option<seq<UserId>>,
    createdAt: Option<int>)

  const NoFields: Fields := Fields(None, None, None, None, None, None, None, None, None, None, None)

  // ---------------------------------------------------------------------------
  // The `trim` setter: JavaScript's String.prototype.trim.
  // ---------------------------------------------------------------------------

  /** ECMAScript WhiteSpace and LineTerminator code points. */
  predicate IsWhitespace(c: char) {
    var n := c as int;
    n == 0x09 || n == 0x0A || n == 0x0B || n == 0x0C || n == 0x0D || n == 0x20
    || n == 0xA0 || n == 0x1680 || (0x2000 <= n <= 0x200A) || n == 0x2028
    || n == 0x2029 || n == 0x202F || n == 0x205F || n == 0x3000 || n == 0xFEFF
  }

  /** `s` neither starts nor ends with whitespace. */
  predicate Trimmed(s: string) {
    s == [] || (!IsWhitespace(s[0]) && !IsWhitespace(s[|s| - 1]))
  }

  /** Drops leading whitespace: the result is a suffix of `s` and only whitespace was dropped. */
  function TrimStart(s: string): (r: string)
    ensures |r| <= |s| && r == s[|s| - |r|..]
    ensures forall i :: 0 <= i < |s| - |r| ==> IsWhitespace(s[i])
    ensures r == [] || !IsWhitespace(r[0])
  {
    if s != [] && IsWhitespace(s[0]) then TrimStart(s[1..]) else s
  }

  /** Drops trailing whitespace: the result is a prefix of `s` and only whitespace was dropped. */
  function TrimEnd(s: string): (r: string)
    ensures |r| <= |s| && r == s[..|r|]
    ensures forall i :: |r| <= i < |s| ==> IsWhitespace(s[i])
    ensures r == [] || !IsWhitespace(r[|r| - 1])
  {
    if s != [] && IsWhitespace(s[|s| - 1]) then TrimEnd(s[..|s| - 1]) else s
  }

  /** The stored form of `name`: a prefix of `s` without its leading whitespace, framed by no whitespace. */
  function Trim(s: string): (r: string)
    ensures Trimmed(r)
    ensures r <= TrimStart(s)
    ensures forall i :: |r| <= i < |TrimStart(s)| ==> IsWhitespace(TrimStart(s)[i])
  {
    var t := TrimStart(s);
    var r := TrimEnd(t);
    if r != [] then assert r[0] == t[0]; r else r
  }

  /** A string that is already trimmed is left alone. */
  lemma TrimFixpoint(s: string)
    requires Trimmed(s)
    ensures Trim(s) == s
  {
  }

  /** Trimming twice is trimming once. */
  lemma TrimIdempotent(s: string)
    ensures Trim(Trim(s)) == Trim(s)
  {
    TrimFixpoint(Trim(s));
  }

  /** Every character of `w` is whitespace. */
  predicate AllWhitespace(w: string) {
    forall i :: 0 <= i < |w| ==> IsWhitespace(w[i])
  }

  lemma {:induction false} TrimStartDropsPrefix(w: string, s: string)
    requires AllWhitespace(w)
    requires s == [] || !IsWhitespace(s[0])
    ensures TrimStart(w + s) == s
  {
    if w != [] {
      assert (w + s)[1..] == w[1..] + s;
      TrimStartDropsPrefix(w[1..], s);
    }
  }

  lemma {:induction false} TrimEndDropsSuffix(s: string, w: string)
    requires AllWhitespace(w)
    requires s == [] || !IsWhitespace(s[|s| - 1])
    ensures TrimEnd(s + w) == s
  {
    if w != [] {
      assert (s + w)[..|s + w| - 1] == s + w[..|w| - 1];
      TrimEndDropsSuffix(s, w[..|w| - 1]);
    }
  }

  /** Trimming removes exactly the whitespace framing a trimmed string and nothing inside it. */
  lemma TrimRemovesFrame(w1: string, s: string, w2: string)
    requires AllWhitespace(w1) && AllWhitespace(w2) && Trimmed(s)
    ensures Trim(w1 + s + w2) == s
  {
    if s == [] {
      assert w1 + s + w2 == (w1 + w2) + [];
      TrimStartDropsPrefix(w1 + w2, []);
    } else {
      assert w1 + s + w2 == w1 + (s + w2);
      TrimStartDropsPrefix(w1, s + w2);
      TrimEndDropsSuffix(s, w2);
    }
  }

  // ---------------------------------------------------------------------------
  // Validators run on save.
  // ---------------------------------------------------------------------------

  /**
   * The schema's validators: a required String must be a non-empty string,
   * `category` must be one of the enum values and `capacity` at least 1.
   * `imageUrl` is optional and `attendees` is unconstrained.
   */
  predicate ValidEvent(e: Event) {
    && e.name != ""
    && e.description != ""
    && e.time != ""
    && e.location != ""
    && e.category in Categories
    && e.capacity >= 1
  }

  /** What every stored document satisfies: it passed validation and its name went through the setter. */
  predicate Stored(e: Event) {
    ValidEvent(e) && Trimmed(e.name)
  }

  /** The validators never look at `imageUrl`, `organizer`, `attendees` or `createdAt`. */
  lemma ValidIgnoresOptionalParts(e: Event, url: Option<string>, org: UserId, att: seq<UserId>, at: int)
    ensures ValidEvent(e.(imageUrl := url, organizer := org, attendees := att, createdAt := at)) == ValidEvent(e)
  {
  }

  /**
   * With every other field valid, a category passes exactly when it is one of
   * the enum values and a capacity exactly when it is at least 1.
   */
  lemma CategoryAndCapacityRules(e: Event, category: string, capacity: int)
    requires ValidEvent(e)
    ensures ValidEvent(e.(category := category)) <==> category in Categories
    ensures ValidEvent(e.(capacity := capacity)) <==> capacity >= 1
  {
  }

  /** A name consisting only of whitespace is rejected once trimmed. */
  lemma BlankNameRejected(s: string, e: Event)
    requires AllWhitespace(s)
    ensures Trim(s) == "" && !ValidEvent(e.(name := Trim(s)))
  {
    assert s + [] == s;
    TrimStartDropsPrefix(s, []);
  }

  // ---------------------------------------------------------------------------
  // Building a document from a body (the `new Event({...})` constructor).
  // ---------------------------------------------------------------------------

  /** Whether the body supplies every field the schema marks as required (organizer is supplied separately). */
  predicate HasRequired(body: Fields) {
    && body.name.Some? && body.description.Some? && body.date.Some? && body.time.Some?
    && body.location.Some? && body.category.Some? && body.capacity.Some?
  }

  /**
   * The document built from `body` with `organizer` set by the caller: `name`
   * goes through the trim setter, `attendees` defaults to the empty list and
   * `createdAt` to `now`. No document exists when a required field is missing.
   */
  function Instantiate(body: Fields, id: EventId, organizer: UserId, now: int): (r: Option<Event>)
    ensures r.Some? <==> HasRequired(body)
    ensures r.Some? ==> r.value.id == id && r.value.organizer == organizer && Trimmed(r.value.name)
    ensures r.Some? ==>
      && r.value.name == Trim(body.name.value) && r.value.description == body.description.value
      && r.value.date == body.date.value && r.value.time == body.time.value
      && r.value.location == body.location.value && r.value.category == body.category.value
      && r.value.capacity == body.capacity.value && r.value.imageUrl == body.imageUrl
    ensures r.Some? ==> r.value.attendees == (if body.attendees.Some? then body.attendees.value else [])
    ensures r.Some? ==> r.value.createdAt == (if body.createdAt.Some? then body.createdAt.value else now)
  {
    if !HasRequired(body) then None
    else
      var name := Trim(body.name.value);
      Some(Event(id, name, body.description.value, body.date.value, body.time.value,
                 body.location.value, body.category.value, body.capacity.value, body.imageUrl,
                 organizer, body.attendees.GetOr([]), body.createdAt.GetOr(now)))
  }

  /** The body's own `organizer` field plays no part in the document built from it. */
  lemma InstantiateIgnoresBodyOrganizer(body: Fields, id: EventId, organizer: UserId, now: int, forged: UserId)
    ensures Instantiate(body.(organizer := Some(forged)), id, organizer, now) == Instantiate(body, id, organizer, now)
  {
  }

  /**
   * What `POST /` accepts, stated on the raw body: every required field is
   * present, the name is not blank once trimmed, the other required strings
   * are non-empty, the category is an enum value and the capacity at least 1.
   */
  lemma AcceptedBody(body: Fields, id: EventId, organizer: UserId, now: int)
    ensures var d := Instantiate(body, id, organizer, now);
      (d.Some? && ValidEvent(d.value)) <==>
      && HasRequired(body)
      && Trim(body.name.value) != ""
      && body.description.value != "" && body.time.value != "" && body.location.value != ""
      && body.category.value in Categories
      && body.capacity.value >= 1
  {
  }
}
