# Volunteer platform: stores, guards and points, modelled in Dafny

This project models the small, exactly stated rules at the heart of a
volunteer-coordination web application. Users log volunteer hours, and any
signed-in user can verify them. Verified hours earn points, and a
certificate is issued when a user's total equals a milestone. A leaderboard
ranks users by their verified hours. Teams, events and help requests each
keep a list of members (team members, event attendees, help-request
volunteers). Users join and leave these lists through guarded updates, and
only the creator may delete an event or a help request. On the client side,
the help-requests page filters requests by urgency, and the profile page edits
its skill and cause tags.

Modules, one per source file:

- `Common` (common.dfy) holds the handler outcomes (`Ok`/`Err` with
  `NotFound`, `Forbidden`, `BadRequest` for 404/403/400). It also holds
  `Array.prototype.filter` as `Filter`, the listing handlers' query object
  and `find(query)` as `Select`, and the guarded push and removal that
  the membership handlers share (`Enlist`, `Delist`).
- `ImpactLedger` (impact_ledger.dfy) is the impact service's store. It is a
  class `Ledger` over a `seq<Impact>`; logging appends a record and
  verification updates one in place. It also holds the points query as a
  function of the store.
- `ImpactLeaderboard` (impact_leaderboard.dfy) is the leaderboard
  aggregation. It keeps the verified records, groups them by user summing the
  hours, sorts descending and keeps ten.
- `Teams`, `Events`, `HelpRequests` (teams.dfy, events.dfy,
  help_requests.dfy) are the three controllers. Each is a class holding a
  `map` from identifier to entity. The join, attend, volunteer and leave
  methods state the new store through a pure guard function on one entity
  (`Join`, `Attend`, `Volunteer`, `Leave`); the create and delete methods
  state it directly. Each class invariant `Valid()` says no list holds a user
  twice.
- `HelpRequestsPage` and `ProfilePage` (help_requests_page.dfy,
  profile_page.dfy) are the client-side list logic, written as pure functions
  from page state to page state.

Identifiers: a user id is a string; only equality is used on it, and it names
the certificate file. Teams, events and help requests get `nat` identifiers
from a counter in their store; an impact record names its event by the
event store's identifier. An impact record's identifier is its
position in the ledger. Hours are natural numbers. Certificate issuance
returns the file name `<userId>_certificate.png`; drawing the image and
writing the file are not modelled. The service reports an unknown impact
record by throwing an error, which the HTTP layer answers with status 500.
The model returns `Err(NotFound)` for this case.

Three behaviours of the code the model keeps as they are:

- Hours are not validated: zero hours are accepted.
- Re-verifying a verified record succeeds and records the new verifier.
- Any user may verify any record, including their own.

## Model

| member | source | states |
|---|---|---|
| `ImpactLedger.Ledger.LogVolunteerHours` | backend/src/services/impactService.js:8-15 | exactly one record is appended: pending, no verifier, with the given user, event and hours; earlier records unchanged; its id is its position |
| `ImpactLedger.Ledger.VerifyHours` | backend/src/services/impactService.js:17-26 | unknown id: NotFound, store unchanged; otherwise that record becomes verified by the latest verifier (also when already verified), user/event/hours kept, no other record touched; no record ever returns to pending and "verifier present iff verified" is kept |
| `ImpactLedger.FindVerified` | backend/src/services/impactService.js:29 | the query `{user, status: 'verified'}`: exactly that user's verified records, each as often as stored, in ledger order |
| `ImpactLedger.SumHours` | backend/src/services/impactService.js:30 | the `reduce` from `acc` gives `acc` plus the total hours of the records |
| `ImpactLedger.SumOfFoundIsVerifiedHours` | backend/src/services/impactService.js:29-30 | the `reduce` over the found verified records of a user equals the reference sum of hours over that user's verified records |
| `ImpactLedger.GetUserPoints` | backend/src/services/impactService.js:28-42 | totalHours is the user's verified-hours sum, points = 5 × totalHours, and a certificate named after the user is returned exactly when totalHours is 20, 50 or 100 |
| `ImpactLedger.MilestoneIsExact` | backend/src/services/impactService.js:34-41 | one hour either side of a milestone (19, 21, 49, 51, 99, 101) earns no certificate |
| `ImpactLedger.CertificateName` | backend/src/utils/certificateGenerator.js:23 | the certificate file name begins with the user id |
| `ImpactLedger.CertificateNameInjective` | backend/src/utils/certificateGenerator.js:23 | two users never get the same certificate file name |
| `ImpactLedger.VerifiedHoursAppend` | backend/src/services/impactService.js:29-30 | the verified-hours sum of a concatenated ledger is the sum over the parts |
| `ImpactLedger.VerifiedHoursUpdate` | backend/src/services/impactService.js:20-30 | replacing one record changes a user's total by the difference of the two records' contributions |
| `ImpactLedger.LoggingKeepsPoints` | backend/src/services/impactService.js:8-31 | appending a pending record changes no user's points summary |
| `ImpactLedger.VerifyingCreditsOwner` | backend/src/services/impactService.js:17-30 | verifying a pending record adds its hours to its owner's total only; re-verifying changes no total |
| `ImpactLedger.LogVerifyAndScore` | backend/src/services/impactService.js:8-41 | log 20 hours, verify, query: 20 hours, 100 points, certificate `<user>_certificate.png` |
| `ImpactLedger.LogTwiceVerifyBothAndScore` | backend/src/services/impactService.js:8-41 | log 10 hours twice, verify both, query: 20 hours, 100 points, certificate issued |
| `ImpactLeaderboard.AddToGroup` | backend/src/services/impactService.js:47 | one `$sum` step: exactly the given user's group total grows by the hours, a new group appears only for a new user, users stay distinct |
| `ImpactLeaderboard.GroupFrom` | backend/src/services/impactService.js:47 | grouping a list of records yields one group per owner, each total the sum of that owner's hours |
| `ImpactLeaderboard.IsVerified` | backend/src/services/impactService.js:46 | a record passing `$match` adds its hours to its owner's verified total; a record failing it adds to nobody's |
| `ImpactLeaderboard.Group` | backend/src/services/impactService.js:46-47 | after `$match` and `$group`: one group per user with a verified record, holding that user's verified-hours sum |
| `ImpactLeaderboard.Insert` | backend/src/services/impactService.js:48 | inserting a group adds exactly that group (as a multiset) |
| `ImpactLeaderboard.InsertSorted` | backend/src/services/impactService.js:48 | inserting into a list sorted by descending total keeps it sorted |
| `ImpactLeaderboard.SortDesc` | backend/src/services/impactService.js:48 | the sort is a permutation of the groups |
| `ImpactLeaderboard.SortDescCorrect` | backend/src/services/impactService.js:48 | the sorted groups are in non-increasing order of total and keep users distinct |
| `ImpactLeaderboard.Top` | backend/src/services/impactService.js:49 | `$limit`: the first min(10, n) groups |
| `ImpactLeaderboard.TopOfSorted` | backend/src/services/impactService.js:48-49 | a prefix of sorted distinct groups is sorted and distinct, and any group left out has a total no larger than the last one kept, which happens only when ten are kept |
| `ImpactLeaderboard.GetLeaderboard` | backend/src/services/impactService.js:44-51 | at most 10 entries |
| `ImpactLeaderboard.LeaderboardEntriesCorrect` | backend/src/services/impactService.js:44-51 | each user at most once, only users with verified records, each entry's total equal to the user's verified-hours sum, in non-increasing order |
| `ImpactLeaderboard.LeaderboardOmitsOnlyLower` | backend/src/services/impactService.js:48-49 | a user with a verified record or positive verified hours is left out only when 10 entries are shown and the last shown has at least as many hours |
| `ImpactLeaderboard.HigherTotalRanksFirst` | backend/src/services/impactService.js:48 | of two listed users, the one with more verified hours comes first |
| `Common.Filter` | frontend/src/pages/HelpRequests.jsx:28-37 | `Array.prototype.filter` never lengthens the list |
| `Common.FilterIsSubsequence` | frontend/src/pages/HelpRequests.jsx:28-37 | the filtered list keeps the order of the input |
| `Common.FilterCount` | frontend/src/pages/HelpRequests.jsx:28-37 | each element passing the test is kept as often as it occurs, every other element is dropped |
| `Common.FilterIdempotent` | frontend/src/pages/HelpRequests.jsx:28-37 | filtering twice by the same test is filtering once |
| `Common.AddIfSupplied` | backend/src/controllers/eventController.js:29-30 | an empty filter leaves the query as it was; a supplied one sets exactly that field to the filter value, the other fields kept |
| `Common.Satisfies` | backend/src/controllers/eventController.js:33 | a document satisfies a query exactly when overriding the document with the query changes nothing; the empty query is satisfied by every document |
| `Common.Select` | backend/src/controllers/eventController.js:33 | `find(query)` on a collection: exactly the entries whose document passes, each with its stored value; all entries when every document passes |
| `Common.SatisfiesTwoFilters` | backend/src/controllers/eventController.js:27-30 | a query built from two optional filters on distinct fields requires each supplied filter to equal its field and constrains nothing else |
| `Common.Enlist` | backend/src/controllers/eventController.js:58-64 | a user already listed is refused with BadRequest; otherwise the user is appended at the end; no duplicate is created |
| `Common.Without` | backend/src/controllers/teamController.js:93 | every occurrence of the value is removed, the remaining elements keep their order and multiplicity, no duplicate is created |
| `Common.Delist` | backend/src/controllers/teamController.js:89-93 | a user not listed is refused with BadRequest; otherwise all the user's occurrences are removed, the others kept in order |
| `Common.DelistUndoesEnlist` | backend/src/controllers/teamController.js:68-93 | leaving right after joining restores the list |
| `Teams.Join` | backend/src/controllers/teamController.js:64-72 | private team: Forbidden (checked first); member: BadRequest; otherwise the user is appended and nothing else changes; no duplicate is created |
| `Teams.Leave` | backend/src/controllers/teamController.js:89-93 | non-member: BadRequest; otherwise the user is gone, other members keep order and count, name, privacy and creator untouched (no creator check) |
| `Teams.LeaveUndoesJoin` | backend/src/controllers/teamController.js:56-95 | leaving a team just joined gives the team back |
| `Teams.TeamStore.CreateTeam` | backend/src/controllers/teamController.js:5-22 | empty name or description: BadRequest, nothing created; otherwise a new id holding the team with creator = requester and members = [requester], privacy defaulting to public |
| `Teams.TeamStore.GetPublicTeams` | backend/src/controllers/teamController.js:31 | exactly the teams that are not private |
| `Teams.TeamStore.GetTeamById` | backend/src/controllers/teamController.js:41-49 | the team, or NotFound for an unknown id |
| `Teams.TeamStore.JoinTeam` | backend/src/controllers/teamController.js:56-74 | unknown id: NotFound; otherwise `Join`'s answer, and only a success changes the store, only at that id; no team ever lists a member twice |
| `Teams.TeamStore.LeaveTeam` | backend/src/controllers/teamController.js:81-95 | unknown id: NotFound; otherwise `Leave`'s answer, and only a success changes the store, only at that id |
| `Events.ListingQuery` | backend/src/controllers/eventController.js:27-30 | the query names `category` exactly when that filter is supplied, and `location` likewise, each with the filter's value, and names no other field |
| `Events.MatchesQuery` | backend/src/controllers/eventController.js:26-33 | an event satisfies the built query exactly when each supplied filter (category, location) equals its field; an unsupplied filter matches all |
| `Events.SelectEvents` | backend/src/controllers/eventController.js:25-33 | exactly the events matching each supplied filter (category, location); with neither supplied, all events |
| `Events.Attend` | backend/src/controllers/eventController.js:58-64 | attendee: BadRequest; otherwise the requester is appended; no duplicate is created |
| `Events.EventStore.CreateEvent` | backend/src/controllers/eventController.js:4-16 | a new id holding the given fields with creator = requester and no attendees; other events unchanged |
| `Events.EventStore.GetAllEvents` | backend/src/controllers/eventController.js:25-33 | the ids of the stored events matching the query, each with its stored event; all events when no filter is supplied |
| `Events.EventStore.GetEventById` | backend/src/controllers/eventController.js:41-47 | the event, or NotFound for an unknown id |
| `Events.EventStore.JoinEvent` | backend/src/controllers/eventController.js:53-65 | unknown id: NotFound, nothing changes; otherwise `Attend`'s answer, only a success changes the store, only at that id; attendees never hold a duplicate |
| `Events.EventStore.DeleteEvent` | backend/src/controllers/eventController.js:71-82 | unknown id: NotFound; requester not the creator: Forbidden, store unchanged; creator: exactly that event removed |
| `HelpRequests.ListingQuery` | backend/src/controllers/helpRequestController.js:25-28 | the query names `urgency` exactly when that filter is supplied, and `location` likewise, each with the filter's value, and names no other field |
| `HelpRequests.MatchesQuery` | backend/src/controllers/helpRequestController.js:24-31 | a request satisfies the built query exactly when each supplied filter (urgency, location) equals its field; an unsupplied filter matches all |
| `HelpRequests.SelectHelpRequests` | backend/src/controllers/helpRequestController.js:23-31 | exactly the requests matching each supplied filter (urgency, location); with neither supplied, all requests |
| `HelpRequests.Volunteer` | backend/src/controllers/helpRequestController.js:56-62 | volunteer: BadRequest; otherwise the requester (the creator included) is appended; no duplicate is created |
| `HelpRequests.HelpRequestStore.CreateHelpRequest` | backend/src/controllers/helpRequestController.js:4-14 | a new id holding title, description, urgency and location with creator = requester and no volunteers |
| `HelpRequests.HelpRequestStore.GetAllHelpRequests` | backend/src/controllers/helpRequestController.js:23-31 | the ids of the stored requests matching the query, each with its stored request; all requests when no filter is supplied |
| `HelpRequests.HelpRequestStore.GetHelpRequestById` | backend/src/controllers/helpRequestController.js:39-45 | the request, or NotFound for an unknown id |
| `HelpRequests.HelpRequestStore.VolunteerForHelpRequest` | backend/src/controllers/helpRequestController.js:51-63 | unknown id: NotFound; otherwise `Volunteer`'s answer, only a success changes the store, only at that id; volunteers never hold a duplicate |
| `HelpRequests.HelpRequestStore.DeleteHelpRequest` | backend/src/controllers/helpRequestController.js:69-80 | unknown id: NotFound; not the creator: Forbidden, store unchanged; creator: only that request removed |
| `HelpRequestsPage.FilteredHelpRequests` | frontend/src/pages/HelpRequests.jsx:28-37 | an order-preserving subsequence; for "urgent", "medium" or "low" exactly the requests of that urgency, each as often as in the input; for "all" or any other value the whole list |
| `HelpRequestsPage.Shown` | frontend/src/pages/HelpRequests.jsx:29-36 | a request is shown exactly when the filter is not one of "urgent", "medium", "low", or equals the request's urgency |
| `HelpRequestsPage.FilterTwiceIsOnce` | frontend/src/pages/HelpRequests.jsx:28-37 | filtering the shown list again with the same value changes nothing |
| `ProfilePage.AddTag` | frontend/src/pages/Profile.jsx:36-38 | empty or already listed input: nothing changes and the input is kept; otherwise appended at the end and the input cleared; no duplicate is created |
| `ProfilePage.AddSkill` | frontend/src/pages/Profile.jsx:35-40 | skills and skill input change as `AddTag` says; causes, cause input, name and email unchanged |
| `ProfilePage.RemoveSkill` | frontend/src/pages/Profile.jsx:42-47 | every occurrence removed, the other skills keep order and count; causes, inputs, name and email unchanged |
| `ProfilePage.AddCause` | frontend/src/pages/Profile.jsx:49-54 | causes and cause input change as `AddTag` says; skills, skill input, name and email unchanged |
| `ProfilePage.RemoveCause` | frontend/src/pages/Profile.jsx:56-61 | every occurrence removed, the other causes keep order and count; skills, inputs, name and email unchanged |
| `ProfilePage.RemoveSkillUndoesAddSkill` | frontend/src/pages/Profile.jsx:35-47 | removing a skill just added restores the form |
| `ProfilePage.RemoveCauseUndoesAddCause` | frontend/src/pages/Profile.jsx:49-61 | removing a cause just added restores the form |
| `ProfilePage.AddSkillTwiceIsOnce` | frontend/src/pages/Profile.jsx:35-40 | a second add right after the first changes nothing |

## Left out

- HTTP plumbing is not modelled: routing, authentication middleware, status
  codes and JSON bodies, the 500 answers to thrown errors, and the impact
  controller's renaming of `points` to `totalPoints`. Outcomes are the
  `Result`/`Outcome` values.
- Persistence is not modelled: saving, `populate` of creator and member
  names, ObjectId casting, and `includes` comparing ObjectIds with strings.
  Ids are compared by plain equality, and each store is a map or a sequence.
- Request validation (express-validator chains) is not modelled. It runs
  before the create handlers and is an unseen library, so
  `CreateEvent` and `CreateHelpRequest` store the fields they receive, and the
  urgency is any text. The team handler's own empty-name check is modelled.
- JavaScript truthiness is not modelled in full. An empty string plays the
  part of a missing name, description or query filter. The privacy flag is
  an optional boolean, defaulting to public.
- Certificate drawing and file writing are foreign I/O; only the
  returned file name is modelled.
- Hours are natural numbers. The client allows half-hour steps and JavaScript
  adds floating-point numbers; neither is modelled, and the exact-equality
  milestone test is faithful only for whole hours.
- Timestamps (`createdAt`, event dates as dates) are not modelled. The
  events page's date filter depends on the wall clock and is not modelled.
- ImpactLeaderboard.SortDesc: the store leaves the order of equal totals
  unspecified. The model breaks ties in one fixed way, and the contracts
  state only non-increasing order.
- Concurrent requests are not modelled. Verifications or joins that race
  end last-write-wins at the store; every operation here runs to completion
  alone.
- React rendering, network calls of the client, and route guarding
  are out of scope.
