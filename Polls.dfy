/**
 * The poll list page: reading the server's (possibly paginated) response, the search and status
 * filter, the "popular" ordering on a copy, and the header statistics. The home page applies the
 * same filter and statistics to its own list.
 */
module Polls {
  import opened Wrappers
  import opened Types
  import opened Text
  import opened Lists
  import Ranking

  /** What the polls endpoint answers: a bare list, or a page object whose `results` may be
      missing. */
  datatype PollsResponse = PollArray(polls: seq<Poll>) | PollPage(results: Option<seq<Poll>>)

  /** `Array.isArray(data) ? data : (data.results || [])`. */
  function Normalize(data: PollsResponse): (r: seq<Poll>)
    ensures data.PollArray? ==> r == data.polls
    ensures data.PollPage? && data.results.Some? ==> r == data.results.value
    ensures data.PollPage? && data.results.None? ==> r == []
  {
    match data
    case PollArray(polls) => polls
    case PollPage(results) => results.GetOr([])
  }

  /** What the page shows once its load effect has run. */
  datatype LoadState = Loaded(polls: seq<Poll>) | LoadError(message: string)

  /** The load effect: no (truthy) access token means no request at all; otherwise `fetched`
      is the outcome of the one request made with it. */
  function Load(token: Option<string>, fetched: ApiResult<PollsResponse>): (s: LoadState)
    ensures !TruthyString(token) ==> s == LoadError("Not authenticated")
    ensures TruthyString(token) && fetched.Fail? ==> s == LoadError("Failed to load polls")
    ensures TruthyString(token) && fetched.Ok? ==> s == Loaded(Normalize(fetched.value))
  {
    if !TruthyString(token) then LoadError("Not authenticated")
    else match fetched
      case Fail(_) => LoadError("Failed to load polls")
      case Ok(data) => Loaded(Normalize(data))
  }

  /** The status buttons: everything, or only active or only closed polls. */
  datatype StatusFilter = AllPolls | ActiveOnly | ClosedOnly

  predicate MatchesStatus(p: Poll, filter: StatusFilter) {
    match filter
    case AllPolls => true
    case ActiveOnly => p.status == Active
    case ClosedOnly => p.status == Closed
  }

  /** The lower-cased question contains the lower-cased search term. */
  predicate MatchesSearch(p: Poll, term: string) {
    Includes(Lower(p.question), Lower(term))
  }

  /** The filter's test: a poll matches only if its status passes; with the empty term the
      status alone decides, and under "all" the search alone decides. */
  function Matches(p: Poll, term: string, filter: StatusFilter): (m: bool)
    ensures m ==> MatchesStatus(p, filter)
    ensures term == "" ==> (m <==> MatchesStatus(p, filter))
    ensures filter == AllPolls ==> (m <==> Includes(Lower(p.question), Lower(term)))
  {
    IncludesEmpty(Lower(p.question));
    MatchesSearch(p, term) && MatchesStatus(p, filter)
  }

  /** `filteredPolls`: exactly the polls matching both the search term and the status filter,
      in their order in the list. */
  function FilteredPolls(polls: seq<Poll>, term: string, filter: StatusFilter): (r: seq<Poll>)
    ensures forall p :: p in r <==> p in polls && Matches(p, term, filter)
    ensures IsSubsequence(r, polls)
    ensures |r| == CountWhere(polls, p => Matches(p, term, filter))
  {
    Filter(polls, p => Matches(p, term, filter))
  }

  /** An empty search term matches every question. */
  lemma EmptySearchMatches(p: Poll)
    ensures MatchesSearch(p, "")
  {
    IncludesEmpty(Lower(p.question));
    assert Lower("") == "";
  }

  /** The unfiltered view: "all" with an empty search shows the whole list, unchanged. */
  lemma UnfilteredIsIdentity(polls: seq<Poll>)
    ensures FilteredPolls(polls, "", AllPolls) == polls
  {
    forall p | p in polls ensures Matches(p, "", AllPolls) {
      EmptySearchMatches(p);
    }
    FilterAll(polls, p => Matches(p, "", AllPolls));
  }

  /** Searching ignores ASCII case: a term and its lower-cased form select the same polls. */
  lemma SearchIgnoresCase(polls: seq<Poll>, term: string, filter: StatusFilter)
    ensures FilteredPolls(polls, Lower(term), filter) == FilteredPolls(polls, term, filter)
  {
    LowerIdempotent(term);
    FilterCongruent(polls, p => Matches(p, Lower(term), filter), p => Matches(p, term, filter));
  }

  lemma LowerIdempotent(s: string)
    ensures Lower(Lower(s)) == Lower(s)
  {
  }

  /** The "popular" ordering: a copy of the filtered list, most votes first. */
  function PopularOrder(filtered: seq<Poll>): (r: seq<Poll>)
    ensures |r| == |filtered|
    ensures forall i, j :: 0 <= i < j < |r| ==> r[i].totalVotes >= r[j].totalVotes
  {
    Ranking.SortDescNonIncreasing(filtered, PollTotal);
    Ranking.SortDesc(filtered, PollTotal)
  }

  /** The popular ordering is a permutation of the filtered list whose totals never increase,
      and polls with equal totals keep their filtered order. */
  lemma PopularOrderRanked(filtered: seq<Poll>, v: int)
    ensures multiset(PopularOrder(filtered)) == multiset(filtered)
    ensures forall i, j :: 0 <= i < j < |PopularOrder(filtered)| ==>
              PopularOrder(filtered)[i].totalVotes >= PopularOrder(filtered)[j].totalVotes
    ensures Ranking.WithKey(PopularOrder(filtered), PollTotal, v) == Ranking.WithKey(filtered, PollTotal, v)
  {
    Ranking.SortDescNonIncreasing(filtered, PollTotal);
    Ranking.SortDescStable(filtered, PollTotal, v);
  }

  predicate IsActivePoll(p: Poll) {
    p.status == Active
  }

  /** The header figures: active polls, votes over all polls, and all polls. */
  datatype Stats = Stats(active: nat, votes: int, total: nat)

  function StatsOf(polls: seq<Poll>): (s: Stats)
    ensures s.total == |polls|
    ensures s.active <= s.total && s.active == |Filter(polls, IsActivePoll)|
    ensures s.votes == SumOf(polls, PollTotal)
  {
    Stats(CountWhere(polls, IsActivePoll), SumOf(polls, PollTotal), |polls|)
  }

  /** The active figure is the number of polls the "active" button shows for an empty search. */
  lemma {:induction false} ActiveCountIsActiveView(polls: seq<Poll>)
    ensures StatsOf(polls).active == |FilteredPolls(polls, "", ActiveOnly)|
  {
    if polls != [] {
      ActiveCountIsActiveView(polls[1..]);
      EmptySearchMatches(polls[0]);
    }
  }

  /** With no negative totals the votes figure is not negative either, and at least each poll's
      own total. */
  lemma {:induction false} VotesCoverEachPoll(polls: seq<Poll>, k: nat)
    requires forall i :: 0 <= i < |polls| ==> polls[i].totalVotes >= 0
    requires k < |polls|
    ensures StatsOf(polls).votes >= polls[k].totalVotes >= 0
  {
    if k > 0 {
      VotesCoverEachPoll(polls[1..], k - 1);
    } else if |polls| > 1 {
      VotesCoverEachPoll(polls[1..], 0);
    } else {
      assert SumOf(polls[1..], PollTotal) == 0;
    }
  }

  /** `handleViewDetails`: the detail page of the poll. */
  function DetailsPath(pollId: string): (path: string)
    ensures |path| == 6 + |pollId| && path[..6] == "/poll/" && path[6..] == pollId
  {
    "/poll/" + pollId
  }
}
