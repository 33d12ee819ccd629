/**
 * The filter that `GET /events` builds from its query string
 * (server/routes/events.js:9-27) and the events it selects.
 * Query parameters are strings; an absent parameter is the empty string
 * (both are falsy in JavaScript). The regular-expression search is the
 * caller-supplied relation `matches(pattern, text)`.
 */
module EventQuery {
  import opened Wrappers
  import opened EventSchema

  /** The `date` part of the filter. */
  datatype DateBound = AnyDate | OnOrAfter(t: int) | Before(t: int)

  /** The filter document handed to the store. */
  datatype Query = Query(category: Option<string>, date: DateBound, search: Option<string>)

  /** The filter built field by field from `category`, `date` and `search`; `now` is the request time. */
  function BuildQuery(category: string, date: string, search: string, now: int): Query {
    var c := if category != "" && category != "all" then Some(category) else None;
    var d := if date == "upcoming" then OnOrAfter(now) else if date == "past" then Before(now) else AnyDate;
    var s := if search != "" then Some(search) else None;
    Query(c, d, s)
  }

  /** Whether the event's date lies within the bound. */
  predicate InBound(b: DateBound, date: int) {
    match b
    case AnyDate => true
    case OnOrAfter(t) => date >= t
    case Before(t) => date < t
  }

  /** Whether the store selects `e` for `q`: every present part of the filter holds. */
  predicate Selects(q: Query, e: Event, matches: (string, string) -> bool) {
    && (q.category.Some? ==> e.category == q.category.value)
    && InBound(q.date, e.date)
    && (q.search.Some? ==> matches(q.search.value, e.name) || matches(q.search.value, e.description))
  }

  /**
   * What the built filter selects, stated on the raw parameters: the category
   * must match unless it is absent or `all`, `upcoming` and `past` bound the
   * date by `now` from either side, and a present search must match the name
   * or the description.
   */
  lemma SelectsIff(category: string, date: string, search: string, now: int, e: Event,
                   matches: (string, string) -> bool)
    ensures Selects(BuildQuery(category, date, search, now), e, matches) <==>
      && (category == "" || category == "all" || e.category == category)
      && (date == "upcoming" ==> e.date >= now)
      && (date == "past" ==> e.date < now)
      && (search != "" ==> matches(search, e.name) || matches(search, e.description))
  {
  }

  /** Category `all` and an absent category both leave the category unconstrained. */
  lemma AllCategoriesUnfiltered(date: string, search: string, now: int)
    ensures BuildQuery("all", date, search, now) == BuildQuery("", date, search, now)
    ensures BuildQuery("all", date, search, now).category.None?
  {
  }

  /**
   * With the other parts fixed, `upcoming` and `past` split the events
   * selected for any other date value into two disjoint parts.
   */
  lemma UpcomingPastPartition(category: string, search: string, now: int, e: Event,
                              matches: (string, string) -> bool)
    ensures var up := Selects(BuildQuery(category, "upcoming", search, now), e, matches);
            var past := Selects(BuildQuery(category, "past", search, now), e, matches);
            var all := Selects(BuildQuery(category, "all", search, now), e, matches);
            (up || past <==> all) && !(up && past)
  {
  }
}
