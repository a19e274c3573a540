/** The event handlers: create an event, list events by category and
    location, look one up, attend it, and delete it (creator only). */
module Events {
  import opened Common

  /** An event. The date is kept as the text the client sent. */
  datatype Event = Event(
    title: string, description: string, date: string, time: string,
    location: string, category: string, createdBy: UserId, attendees: seq<UserId>)

  /** The text fields of an event that a query can name. */
  function Fields(e: Event): map<string, string> {
    map["title" := e.title, "description" := e.description, "date" := e.date, "time" := e.time,
        "location" := e.location, "category" := e.category]
  }

  /** The query the listing handler builds from its two optional filters. */
  function ListingQuery(category: string, location: string): (r: Query)
    ensures ("category" in r <==> category != []) && ("category" in r ==> r["category"] == category)
    ensures ("location" in r <==> location != []) && ("location" in r ==> r["location"] == location)
    ensures r.Keys <= {"category", "location"}
  {
    AddIfSupplied(AddIfSupplied(map[], "category", category), "location", location)
  }

  /** An event is listed when it satisfies the query: a filter that was not
      supplied (empty) matches every event, a supplied one only an equal
      field. */
  function MatchesQuery(e: Event, category: string, location: string): (b: bool)
    ensures b <==> (category == [] || e.category == category) && (location == [] || e.location == location)
  {
    SatisfiesTwoFilters(Fields(e), "category", category, "location", location);
    Satisfies(Fields(e), ListingQuery(category, location))
  }

  /** The events matching the query, each as stored; with neither filter
      supplied all of them. */
  function SelectEvents(events: map<EventId, Event>, category: string, location: string): (r: map<EventId, Event>)
    ensures forall id :: id in r <==>
              && id in events
              && (category == [] || events[id].category == category)
              && (location == [] || events[id].location == location)
    ensures forall id :: id in r ==> r[id] == events[id]
    ensures category == [] && location == [] ==> r == events
  {
    Select(events, e => MatchesQuery(e, category, location))
  }

  /** The guard and update of attending event `e`: an attendee is refused
      with 400, anyone else is appended to the attendees. */
  function Attend(e: Event, u: UserId): (r: Result<Event>)
    ensures r.Ok? <==> u !in e.attendees
    ensures r.Err? ==> r.failure == BadRequest
    ensures r.Ok? ==> r.value == e.(attendees := e.attendees + [u])
    ensures r.Ok? && NoDup(e.attendees) ==> NoDup(r.value.attendees)
  {
    match Enlist(e.attendees, u)
    case Ok(as') => Ok(e.(attendees := as'))
    case Err(f) => Err(f)
  }

  /** The event collection. */
  class EventStore {
    var events: map<EventId, Event>
    var nextId: EventId

    /** Identifiers are issued below the counter, and no event lists an
        attendee twice. */
    ghost predicate Valid()
      reads this
    {
      && (forall id :: id in events ==> id < nextId)
      && (forall id :: id in events ==> NoDup(events[id].attendees))
    }

    constructor ()
      ensures Valid() && events == map[]
    {
      events := map[];
      nextId := 0;
    }

    /** Stores a new event created by `requester`, with no attendees yet. */
    method CreateEvent(requester: UserId, title: string, description: string, date: string, time: string,
                       location: string, category: string) returns (id: EventId, created: Event)
      requires Valid()
      modifies this
      ensures Valid()
      ensures id !in old(events) && events == old(events)[id := created]
      ensures created == Event(title, description, date, time, location, category, requester, [])
    {
      created := Event(title, description, date, time, location, category, requester, []);
      id := nextId;
      events := events[id := created];
      nextId := nextId + 1;
    }

    /** The events matching the query. */
    function GetAllEvents(category: string, location: string): (r: map<EventId, Event>)
      reads this
      ensures forall id :: id in r <==> id in events && MatchesQuery(events[id], category, location)
      ensures forall id :: id in r ==> r[id] == events[id]
      ensures category == [] && location == [] ==> r == events
    {
      SelectEvents(events, category, location)
    }

    /** Looks an event up; an unknown identifier is refused with 404. */
    function GetEventById(id: EventId): (r: Result<Event>)
      reads this
      ensures r.Ok? <==> id in events
      ensures r.Ok? ==> r.value == events[id]
      ensures r.Err? ==> r.failure == NotFound
    {
      if id in events then Ok(events[id]) else Err(NotFound)
    }

    /** Attends event `id`: 404 for an unknown event, otherwise `Attend`'s
        answer; only a successful join changes the store, and only that
        event. */
    method JoinEvent(id: EventId, u: UserId) returns (r: Result<Event>)
      requires Valid()
      modifies this
      ensures Valid() && nextId == old(nextId)
      ensures id !in old(events) ==> r == Err(NotFound) && events == old(events)
      ensures id in old(events) ==> r == Attend(old(events)[id], u)
      ensures r.Ok? ==> events == old(events)[id := r.value]
      ensures r.Err? ==> events == old(events)
    {
      if id !in events {
        return Err(NotFound);
      }
      r := Attend(events[id], u);
      if r.Ok? {
        events := events[id := r.value];
      }
    }

    /** Deletes event `id`: 404 for an unknown event, 403 unless `u`
        created it, and otherwise exactly that event is removed. */
    method DeleteEvent(id: EventId, u: UserId) returns (r: Outcome)
      requires Valid()
      modifies this
      ensures Valid() && nextId == old(nextId)
      ensures id !in old(events) ==> r == Fail(NotFound) && events == old(events)
      ensures id in old(events) && old(events)[id].createdBy != u ==> r == Fail(Forbidden) && events == old(events)
      ensures id in old(events) && old(events)[id].createdBy == u ==> r == Done && events == old(events) - {id}
    {
      if id !in events {
        return Fail(NotFound);
      }
      if events[id].createdBy != u {
        return Fail(Forbidden);
      }
      events := events - {id};
      r := Done;
    }
  }
}
