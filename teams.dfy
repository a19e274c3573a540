/** The team handlers: create a team, list the public ones, look one up, and
    join or leave a team. */
module Teams {
  import opened Common

  type TeamId = nat

  datatype Team = Team(name: string, description: string, isPrivate: bool, createdBy: UserId, members: seq<UserId>)

  /** The guards and update of joining team `t`: a private team refuses with
      403 before membership is looked at; a member is refused with 400; any
      other user is appended to the members. */
  function Join(t: Team, u: UserId): (r: Result<Team>)
    ensures r.Ok? <==> !t.isPrivate && u !in t.members
    ensures r.Err? ==> r.failure == (if t.isPrivate then Forbidden else BadRequest)
    ensures r.Ok? ==> r.value == t.(members := t.members + [u])
    ensures r.Ok? && NoDup(t.members) ==> NoDup(r.value.members)
  {
    if t.isPrivate then Err(Forbidden)
    else match Enlist(t.members, u)
      case Ok(ms) => Ok(t.(members := ms))
      case Err(e) => Err(e)
  }

  /** The guard and update of leaving team `t`: a non-member is refused with
      400; otherwise every occurrence of the user is removed, the others keep
      their order, and the creator is not treated specially. */
  function Leave(t: Team, u: UserId): (r: Result<Team>)
    ensures r.Ok? <==> u in t.members
    ensures r.Err? ==> r.failure == BadRequest
    ensures r.Ok? ==> r.value.name == t.name && r.value.description == t.description
    ensures r.Ok? ==> r.value.isPrivate == t.isPrivate && r.value.createdBy == t.createdBy
    ensures r.Ok? ==> u !in r.value.members && IsSubsequence(r.value.members, t.members)
    ensures r.Ok? ==> forall x :: x != u ==> multiset(r.value.members)[x] == multiset(t.members)[x]
    ensures r.Ok? && NoDup(t.members) ==> NoDup(r.value.members)
  {
    match Delist(t.members, u)
    case Ok(ms) => Ok(t.(members := ms))
    case Err(e) => Err(e)
  }

  /** Leaving a team one has just joined restores the team. */
  lemma LeaveUndoesJoin(t: Team, u: UserId)
    requires Join(t, u).Ok?
    ensures Leave(Join(t, u).value, u) == Ok(t)
  {
    DelistUndoesEnlist(t.members, u);
  }

  /** The team collection. */
  class TeamStore {
    var teams: map<TeamId, Team>
    var nextId: TeamId

    /** Identifiers are issued below the counter, and no team lists a member
        twice. */
    ghost predicate Valid()
      reads this
    {
      && (forall id :: id in teams ==> id < nextId)
      && (forall id :: id in teams ==> NoDup(teams[id].members))
    }

    constructor ()
      ensures Valid() && teams == map[]
    {
      teams := map[];
      nextId := 0;
    }

    /** Creates a team whose creator is its only member. An empty name or
        description is refused with 400 and creates nothing. An omitted
        privacy flag means public. */
    method CreateTeam(requester: UserId, name: string, description: string, isPrivate: Option<bool>)
      returns (r: Result<TeamId>)
      requires Valid()
      modifies this
      ensures Valid()
      ensures name == [] || description == [] ==> r == Err(BadRequest) && teams == old(teams)
      ensures name != [] && description != [] ==>
                && r.Ok? && r.value !in old(teams)
                && teams == old(teams)[r.value := Team(name, description, isPrivate.GetOr(false), requester, [requester])]
    {
      if name == [] || description == [] {
        return Err(BadRequest);
      }
      var id := nextId;
      teams := teams[id := Team(name, description, isPrivate.GetOr(false), requester, [requester])];
      nextId := nextId + 1;
      r := Ok(id);
    }

    /** The public teams, and only those. */
    function GetPublicTeams(): (r: map<TeamId, Team>)
      reads this
      ensures forall id :: id in r <==> id in teams && !teams[id].isPrivate
      ensures forall id :: id in r ==> r[id] == teams[id]
    {
      map id | id in teams && !teams[id].isPrivate :: teams[id]
    }

    /** Looks a team up; an unknown identifier is refused with 404. */
    function GetTeamById(id: TeamId): (r: Result<Team>)
      reads this
      ensures r.Ok? <==> id in teams
      ensures r.Ok? ==> r.value == teams[id]
      ensures r.Err? ==> r.failure == NotFound
    {
      if id in teams then Ok(teams[id]) else Err(NotFound)
    }

    /** Joins team `id`: 404 for an unknown team, otherwise `Join`'s answer;
        only a successful join changes the store, and only that team. */
    method JoinTeam(id: TeamId, u: UserId) returns (r: Result<Team>)
      requires Valid()
      modifies this
      ensures Valid() && nextId == old(nextId)
      ensures id !in old(teams) ==> r == Err(NotFound) && teams == old(teams)
      ensures id in old(teams) ==> r == Join(old(teams)[id], u)
      ensures r.Ok? ==> teams == old(teams)[id := r.value]
      ensures r.Err? ==> teams == old(teams)
    {
      if id !in teams {
        return Err(NotFound);
      }
      r := Join(teams[id], u);
      if r.Ok? {
        teams := teams[id := r.value];
      }
    }

    /** Leaves team `id`: 404 for an unknown team, otherwise `Leave`'s
        answer; only a successful leave changes the store, and only that
        team. */
    method LeaveTeam(id: TeamId, u: UserId) returns (r: Outcome)
      requires Valid()
      modifies this
      ensures Valid() && nextId == old(nextId)
      ensures id !in old(teams) ==> r == Fail(NotFound) && teams == old(teams)
      ensures id in old(teams) && Leave(old(teams)[id], u).Err? ==>
                r == Fail(Leave(old(teams)[id], u).failure) && teams == old(teams)
      ensures id in old(teams) && Leave(old(teams)[id], u).Ok? ==>
                r == Done && teams == old(teams)[id := Leave(old(teams)[id], u).value]
    {
      if id !in teams {
        return Fail(NotFound);
      }
      var t := Leave(teams[id], u);
      if t.Err? {
        return Fail(t.failure);
      }
      teams := teams[id := t.value];
      r := Done;
    }
  }
}
