/** The help-request handlers: post a request, list requests by urgency and
    location, look one up, volunteer for it, and delete it (creator only). */
module HelpRequests {
  import opened Common

  type HelpRequestId = nat

  /** A request for help. The urgency is the text the client sent. */
  datatype HelpRequest = HelpRequest(
    title: string, description: string, urgency: string, location: string,
    createdBy: UserId, volunteers: seq<UserId>)

  /** The text fields of a request that a query can name. */
  function Fields(h: HelpRequest): map<string, string> {
    map["title" := h.title, "description" := h.description, "urgency" := h.urgency, "location" := h.location]
  }

  /** The query the listing handler builds from its two optional filters. */
  function ListingQuery(urgency: string, location: string): (r: Query)
    ensures ("urgency" in r <==> urgency != []) && ("urgency" in r ==> r["urgency"] == urgency)
    ensures ("location" in r <==> location != []) && ("location" in r ==> r["location"] == location)
    ensures r.Keys <= {"urgency", "location"}
  {
    AddIfSupplied(AddIfSupplied(map[], "urgency", urgency), "location", location)
  }

  /** A request is listed when it satisfies the query: a filter that was not
      supplied (empty) matches every request, a supplied one only an equal
      field. */
  function MatchesQuery(h: HelpRequest, urgency: string, location: string): (b: bool)
    ensures b <==> (urgency == [] || h.urgency == urgency) && (location == [] || h.location == location)
  {
    SatisfiesTwoFilters(Fields(h), "urgency", urgency, "location", location);
    Satisfies(Fields(h), ListingQuery(urgency, location))
  }

  /** The requests matching the query, each as stored; with neither filter
      supplied all of them. */
  function SelectHelpRequests(requests: map<HelpRequestId, HelpRequest>, urgency: string, location: string)
    : (r: map<HelpRequestId, HelpRequest>)
    ensures forall id :: id in r <==>
              && id in requests
              && (urgency == [] || requests[id].urgency == urgency)
              && (location == [] || requests[id].location == location)
    ensures forall id :: id in r ==> r[id] == requests[id]
    ensures urgency == [] && location == [] ==> r == requests
  {
    Select(requests, h => MatchesQuery(h, urgency, location))
  }

  /** The guard and update of volunteering for `h`: a volunteer is refused
      with 400, anyone else, the creator included, is appended. */
  function Volunteer(h: HelpRequest, u: UserId): (r: Result<HelpRequest>)
    ensures r.Ok? <==> u !in h.volunteers
    ensures r.Err? ==> r.failure == BadRequest
    ensures r.Ok? ==> r.value == h.(volunteers := h.volunteers + [u])
    ensures r.Ok? && NoDup(h.volunteers) ==> NoDup(r.value.volunteers)
  {
    match Enlist(h.volunteers, u)
    case Ok(vs) => Ok(h.(volunteers := vs))
    case Err(f) => Err(f)
  }

  /** The help-request collection. */
  class HelpRequestStore {
    var requests: map<HelpRequestId, HelpRequest>
    var nextId: HelpRequestId

    /** Identifiers are issued below the counter, and no request lists a
        volunteer twice. */
    ghost predicate Valid()
      reads this
    {
      && (forall id :: id in requests ==> id < nextId)
      && (forall id :: id in requests ==> NoDup(requests[id].volunteers))
    }

    constructor ()
      ensures Valid() && requests == map[]
    {
      requests := map[];
      nextId := 0;
    }

    /** Stores a new request posted by `requester`, with no volunteers yet. */
    method CreateHelpRequest(requester: UserId, title: string, description: string, urgency: string,
                             location: string) returns (id: HelpRequestId, created: HelpRequest)
      requires Valid()
      modifies this
      ensures Valid()
      ensures id !in old(requests) && requests == old(requests)[id := created]
      ensures created == HelpRequest(title, description, urgency, location, requester, [])
    {
      created := HelpRequest(title, description, urgency, location, requester, []);
      id := nextId;
      requests := requests[id := created];
      nextId := nextId + 1;
    }

    /** The requests matching the query. */
    function GetAllHelpRequests(urgency: string, location: string): (r: map<HelpRequestId, HelpRequest>)
      reads this
      ensures forall id :: id in r <==> id in requests && MatchesQuery(requests[id], urgency, location)
      ensures forall id :: id in r ==> r[id] == requests[id]
      ensures urgency == [] && location == [] ==> r == requests
    {
      SelectHelpRequests(requests, urgency, location)
    }

    /** Looks a request up; an unknown identifier is refused with 404. */
    function GetHelpRequestById(id: HelpRequestId): (r: Result<HelpRequest>)
      reads this
      ensures r.Ok? <==> id in requests
      ensures r.Ok? ==> r.value == requests[id]
      ensures r.Err? ==> r.failure == NotFound
    {
      if id in requests then Ok(requests[id]) else Err(NotFound)
    }

    /** Volunteers for request `id`: 404 for an unknown request, otherwise
        `Volunteer`'s answer; only a success changes the store, and only that
        request. */
    method VolunteerForHelpRequest(id: HelpRequestId, u: UserId) returns (r: Result<HelpRequest>)
      requires Valid()
      modifies this
      ensures Valid() && nextId == old(nextId)
      ensures id !in old(requests) ==> r == Err(NotFound) && requests == old(requests)
      ensures id in old(requests) ==> r == Volunteer(old(requests)[id], u)
      ensures r.Ok? ==> requests == old(requests)[id := r.value]
      ensures r.Err? ==> requests == old(requests)
    {
      if id !in requests {
        return Err(NotFound);
      }
      r := Volunteer(requests[id], u);
      if r.Ok? {
        requests := requests[id := r.value];
      }
    }

    /** Deletes request `id`: 404 for an unknown request, 403 unless `u`
        posted it, and otherwise exactly that request is removed. */
    method DeleteHelpRequest(id: HelpRequestId, u: UserId) returns (r: Outcome)
      requires Valid()
      modifies this
      ensures Valid() && nextId == old(nextId)
      ensures id !in old(requests) ==> r == Fail(NotFound) && requests == old(requests)
      ensures id in old(requests) && old(requests)[id].createdBy != u ==>
                r == Fail(Forbidden) && requests == old(requests)
      ensures id in old(requests) && old(requests)[id].createdBy == u ==>
                r == Done && requests == old(requests) - {id}
    {
      if id !in requests {
        return Fail(NotFound);
      }
      if requests[id].createdBy != u {
        return Fail(Forbidden);
      }
      requests := requests - {id};
      r := Done;
    }
  }
}
