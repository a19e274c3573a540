/** The urgency filter of the help-requests page: the list shown for the
    selected filter value. */
module HelpRequestsPage {
  import opened Common
  import opened HelpRequests

  /** The values of the filter that select one urgency level. */
  predicate IsUrgencyLevel(filter: string) {
    filter == "urgent" || filter == "medium" || filter == "low"
  }

  /** Whether `request` is shown under `filter`: for a level only requests of
      that level, for "all" or any other value every request. */
  function Shown(filter: string, request: HelpRequest): (b: bool)
    ensures b <==> !IsUrgencyLevel(filter) || request.urgency == filter
  {
    if filter == "urgent" then request.urgency == "urgent"
    else if filter == "medium" then request.urgency == "medium"
    else if filter == "low" then request.urgency == "low"
    else true
  }

  /** The requests shown, in the order they were fetched. */
  function FilteredHelpRequests(requests: seq<HelpRequest>, filter: string): (r: seq<HelpRequest>)
    ensures IsSubsequence(r, requests)
    ensures IsUrgencyLevel(filter) ==>
              forall h :: multiset(r)[h] == if h.urgency == filter then multiset(requests)[h] else 0
    ensures !IsUrgencyLevel(filter) ==> r == requests
  {
    var p := h => Shown(filter, h);
    FilterKeepsAll(p, requests);
    FilterIsSubsequence(p, requests);
    FilterCount(p, requests);
    Filter(p, requests)
  }

  /** Filtering the shown list again with the same value shows the same list. */
  lemma FilterTwiceIsOnce(requests: seq<HelpRequest>, filter: string)
    ensures FilteredHelpRequests(FilteredHelpRequests(requests, filter), filter) == FilteredHelpRequests(requests, filter)
  {
    FilterIdempotent(h => Shown(filter, h), requests);
  }
}
