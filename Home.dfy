/**
 * The home page: the same search and status filter and statistics as the poll list, over its
 * own list, and the two card actions, which lead to the same place.
 */
module Home {
  import opened Types
  import opened Lists
  import Polls

  /** `filteredPolls` of the home page: the polls matching the term and the status filter, in
      order; with "all" and an empty term, the whole list. */
  lemma HomeFilter(polls: seq<Poll>, term: string, filter: Polls.StatusFilter)
    ensures forall p :: p in Polls.FilteredPolls(polls, term, filter) <==>
              p in polls && Polls.MatchesSearch(p, term) && Polls.MatchesStatus(p, filter)
    ensures IsSubsequence(Polls.FilteredPolls(polls, term, filter), polls)
    ensures |Polls.FilteredPolls(polls, term, filter)| ==
              CountWhere(polls, p => Polls.Matches(p, term, filter))
    ensures Polls.FilteredPolls(polls, "", Polls.AllPolls) == polls
  {
    Polls.UnfilteredIsIdentity(polls);
  }

  /** The home statistics: active polls at most all polls, votes the sum of the totals. */
  lemma HomeStats(polls: seq<Poll>)
    ensures Polls.StatsOf(polls).active <= |polls|
    ensures Polls.StatsOf(polls).active == |Polls.FilteredPolls(polls, "", Polls.ActiveOnly)|
    ensures Polls.StatsOf(polls).votes == SumOf(polls, PollTotal)
  {
    Polls.ActiveCountIsActiveView(polls);
  }

  /** `handleVote` and `handleViewDetails`, whose bodies are the same: both open the poll's
      detail page. */
  function CardTarget(pollId: string): (path: string)
    ensures path == Polls.DetailsPath(pollId)
  {
    "/poll/" + pollId
  }

  /** Different polls' cards lead to different pages. */
  lemma CardTargetInjective(a: string, b: string)
    ensures CardTarget(a) == CardTarget(b) ==> a == b
  {
    if CardTarget(a) == CardTarget(b) {
      assert CardTarget(a)[6..] == a && CardTarget(b)[6..] == b;
    }
  }
}
