/**
 * The admin dashboard: the list of polls with its statistics and status changes, and the
 * create-poll form whose movie entries are added, edited and removed before the poll is built.
 */
module Admin {
  import opened Wrappers
  import opened Types
  import opened Text
  import opened Lists
  import PollDetail

  const DefaultPoster: string :=
    "https://images.pexels.com/photos/7991579/pexels-photo-7991579.jpeg?auto=compress&cs=tinysrgb&w=400"

  /** A movie entry of the form. */
  datatype MovieDraft = MovieDraft(title: string, poster: string, genre: string,
                                   releaseDate: string, rating: real)

  const BlankDraft: MovieDraft := MovieDraft("", "", "", "", 0.0)

  /** The create form. */
  datatype NewPollForm = NewPollForm(question: string, description: string, deadline: string,
                                     movieOptions: seq<MovieDraft>)

  const EmptyForm: NewPollForm := NewPollForm("", "", "", [BlankDraft])

  /** One edit of a movie entry: the field named and its new value. */
  datatype DraftEdit =
    | SetTitle(title: string)
    | SetPoster(poster: string)
    | SetGenre(genre: string)
    | SetReleaseDate(releaseDate: string)
    | SetRating(rating: real)

  /** `{ ...movie, [field]: value }`: the named field takes the value, the others stay. */
  function ApplyEdit(d: MovieDraft, e: DraftEdit): (r: MovieDraft)
    ensures e.SetTitle? ==> r == d.(title := e.title)
    ensures e.SetPoster? ==> r == d.(poster := e.poster)
    ensures e.SetGenre? ==> r == d.(genre := e.genre)
    ensures e.SetReleaseDate? ==> r == d.(releaseDate := e.releaseDate)
    ensures e.SetRating? ==> r == d.(rating := e.rating)
  {
    match e
    case SetTitle(v) => d.(title := v)
    case SetPoster(v) => d.(poster := v)
    case SetGenre(v) => d.(genre := v)
    case SetReleaseDate(v) => d.(releaseDate := v)
    case SetRating(v) => d.(rating := v)
  }

  /** `movieOptions.map((movie, i) => i === index ? edited : movie)`. */
  function EditAt(ds: seq<MovieDraft>, index: int, e: DraftEdit): (r: seq<MovieDraft>)
    ensures |r| == |ds|
    ensures forall i :: 0 <= i < |ds| ==> r[i] == if i == index then ApplyEdit(ds[i], e) else ds[i]
  {
    if ds == [] then []
    else [if index == 0 then ApplyEdit(ds[0], e) else ds[0]] + EditAt(ds[1..], index - 1, e)
  }

  /** The option the create handler makes from entry number `n` (counting from one). */
  function OptionOf(d: MovieDraft, n: nat): (o: PollOption)
    ensures o.id == NatToString(n) && o.movie.id == o.id && o.votes == 0
    ensures o.movie.title == d.title && o.movie.genre == d.genre
            && o.movie.releaseDate == d.releaseDate && o.movie.rating == d.rating
    ensures d.poster == "" ==> o.movie.poster == DefaultPoster
    ensures d.poster != "" ==> o.movie.poster == d.poster
  {
    var id := NatToString(n);
    PollOption(id, Movie(id, d.title, if d.poster == "" then DefaultPoster else d.poster,
                         d.genre, d.releaseDate, d.rating), 0)
  }

  /** The options of a new poll: option `i` is made from entry `i` of the form and numbered
      `start + i + 1`, so a new poll's options are numbered "1" to "n" in form order. */
  function BuildOptions(ds: seq<MovieDraft>, start: nat): (r: seq<PollOption>)
    ensures |r| == |ds|
    ensures forall i :: 0 <= i < |r| ==> r[i] == OptionOf(ds[i], start + i + 1)
  {
    seq(|ds|, i requires 0 <= i < |ds| => OptionOf(ds[i], start + i + 1))
  }

  /** `handleCreatePoll`'s poll: id the creation time's decimal form, a draft by "admin" with
      no votes. */
  function NewPoll(form: NewPollForm, nowMs: nat, createdAt: string): (p: Poll)
    ensures p.id == NatToString(nowMs)
    ensures p.question == form.question && p.description == Some(form.description)
    ensures p.deadline == form.deadline
    ensures p.options == BuildOptions(form.movieOptions, 0)
    ensures p.status == Draft && p.createdBy == "admin" && p.createdAt == createdAt
    ensures p.totalVotes == 0 && p.userVote == None
  {
    Poll(NatToString(nowMs), form.question, Some(form.description),
         BuildOptions(form.movieOptions, 0), form.deadline, Draft, "admin", createdAt,
         None, 0, None, None, None, None, None, None)
  }

  /** The option ids of a new poll are all different. */
  lemma BuildOptionsDistinct(ds: seq<MovieDraft>, start: nat)
    ensures PollDetail.DistinctIds(BuildOptions(ds, start))
  {
    var r := BuildOptions(ds, start);
    forall i, j | 0 <= i < j < |r| ensures r[i].id != r[j].id {
      if r[i].id == r[j].id {
        var oi, oj := OptionOf(ds[i], start + i + 1), OptionOf(ds[j], start + j + 1);
        assert r[i] == oi && r[j] == oj;
        NatToStringInjective(start + i + 1, start + j + 1);
      }
    }
  }

  lemma {:induction false} SumOfZeroVotes(options: seq<PollOption>)
    requires forall i :: 0 <= i < |options| ==> options[i].votes == 0
    ensures SumOf(options, OptionVotes) == 0
  {
    if options != [] {
      SumOfZeroVotes(options[1..]);
    }
  }

  /** A poll built by the create handler is consistent for voting: distinct option ids, no
      negative counts, and a total equal to the (zero) sum of its votes. */
  lemma NewPollConsistent(form: NewPollForm, nowMs: nat, createdAt: string)
    ensures PollDetail.Consistent(NewPoll(form, nowMs, createdAt))
  {
    var p := NewPoll(form, nowMs, createdAt);
    BuildOptionsDistinct(form.movieOptions, 0);
    SumOfZeroVotes(p.options);
  }

  /** `handleStatusChange`'s map: polls with the id take the new status; everything else is
      kept. */
  function SetStatus(polls: seq<Poll>, pollId: string, status: Status): (r: seq<Poll>)
    ensures |r| == |polls|
    ensures forall i :: 0 <= i < |polls| ==>
              r[i] == if polls[i].id == pollId then polls[i].(status := status) else polls[i]
  {
    if polls == [] then []
    else [if polls[0].id == pollId then polls[0].(status := status) else polls[0]]
         + SetStatus(polls[1..], pollId, status)
  }

  /** A status change leaves the vote total of the dashboard as it was. */
  lemma {:induction false} SetStatusKeepsVotes(polls: seq<Poll>, pollId: string, status: Status)
    ensures SumOf(SetStatus(polls, pollId, status), PollTotal) == SumOf(polls, PollTotal)
  {
    if polls != [] {
      var r := SetStatus(polls, pollId, status);
      assert r[1..] == SetStatus(polls[1..], pollId, status);
      SetStatusKeepsVotes(polls[1..], pollId, status);
    }
  }

  predicate IsActivePoll(p: Poll) {
    p.status == Active
  }

  predicate IsDraftPoll(p: Poll) {
    p.status == Draft
  }

  datatype AdminStats = AdminStats(totalPolls: nat, activePolls: nat, totalVotes: int, draftPolls: nat)

  /** `stats`: all polls, active ones, votes over all polls, drafts. */
  function StatsOf(polls: seq<Poll>): (s: AdminStats)
    ensures s.totalPolls == |polls|
    ensures s.totalVotes == SumOf(polls, PollTotal)
    ensures s.activePolls == |Filter(polls, IsActivePoll)|
    ensures s.draftPolls == |Filter(polls, IsDraftPoll)|
    ensures s.activePolls + s.draftPolls <= s.totalPolls
  {
    DisjointCounts(polls, IsActivePoll, IsDraftPoll);
    AdminStats(|polls|, CountWhere(polls, IsActivePoll), SumOf(polls, PollTotal),
               CountWhere(polls, IsDraftPoll))
  }

  /** Every poll created on the dashboard adds one poll and one draft and no votes. */
  lemma CreateAddsDraft(p: Poll, polls: seq<Poll>)
    requires p.status == Draft && p.totalVotes == 0
    ensures StatsOf([p] + polls).totalPolls == StatsOf(polls).totalPolls + 1
    ensures StatsOf([p] + polls).draftPolls == StatsOf(polls).draftPolls + 1
    ensures StatsOf([p] + polls).activePolls == StatsOf(polls).activePolls
    ensures StatsOf([p] + polls).totalVotes == StatsOf(polls).totalVotes
  {
    assert ([p] + polls)[1..] == polls;
  }

  class AdminPage {
    var polls: seq<Poll>
    var isCreateModalOpen: bool
    var newPoll: NewPollForm

    constructor (initial: seq<Poll>)
      ensures polls == initial && !isCreateModalOpen && newPoll == EmptyForm
    {
      polls := initial;
      isCreateModalOpen := false;
      newPoll := EmptyForm;
    }

    method OpenCreateModal()
      modifies this`isCreateModalOpen
      ensures isCreateModalOpen
    {
      isCreateModalOpen := true;
    }

    /** Creating is offered exactly when there is a question and a deadline, so every poll created through
        the button has both, and the freshly reset form cannot be submitted. */
    function CreateDisabled(): (d: bool)
      reads this
      ensures !d ==> forall nowMs: nat, createdAt: string ::
                       NewPoll(newPoll, nowMs, createdAt).question != ""
                       && NewPoll(newPoll, nowMs, createdAt).deadline != ""
      ensures newPoll.question != "" && newPoll.deadline != "" ==> !d
      ensures newPoll == EmptyForm ==> d
    {
      newPoll.question == "" || newPoll.deadline == ""
    }

    /** `handleCreatePoll` at time `nowMs`: the new poll goes in front of the others, which keep
        their order; the modal closes and the form is reset to one blank movie entry. */
    method CreatePoll(nowMs: nat, createdAt: string)
      modifies this
      ensures polls == [NewPoll(old(newPoll), nowMs, createdAt)] + old(polls)
      ensures !isCreateModalOpen && newPoll == EmptyForm
    {
      var p := NewPoll(newPoll, nowMs, createdAt);
      polls := [p] + polls;
      isCreateModalOpen := false;
      newPoll := EmptyForm;
    }

    /** `handleStatusChange`: only the status of the polls with that id changes. */
    method StatusChange(pollId: string, status: Status)
      modifies this`polls
      ensures polls == SetStatus(old(polls), pollId, status)
    {
      polls := SetStatus(polls, pollId, status);
    }

    /** `addMovieOption`: one blank entry at the end. */
    method AddMovieOption()
      modifies this`newPoll
      ensures newPoll == old(newPoll).(movieOptions := old(newPoll).movieOptions + [BlankDraft])
    {
      newPoll := newPoll.(movieOptions := newPoll.movieOptions + [BlankDraft]);
    }

    /** `updateMovieOption`: only the named field of entry `index` changes. */
    method UpdateMovieOption(index: int, e: DraftEdit)
      modifies this`newPoll
      ensures newPoll == old(newPoll).(movieOptions := EditAt(old(newPoll).movieOptions, index, e))
    {
      newPoll := newPoll.(movieOptions := EditAt(newPoll.movieOptions, index, e));
    }

    /** `removeMovieOption`: exactly entry `index` is dropped. It has no guard of its own; the
        remove buttons are offered only while there is more than one entry. */
    method RemoveMovieOption(index: int)
      modifies this`newPoll
      ensures newPoll == old(newPoll).(movieOptions := WithoutIndex(old(newPoll).movieOptions, index))
    {
      newPoll := newPoll.(movieOptions := WithoutIndex(newPoll.movieOptions, index));
    }

    /** The remove buttons are shown exactly while there is more than one entry: removing through
        one always leaves an entry, and the reset form offers none. */
    function RemoveOffered(): (r: bool)
      reads this
      ensures r ==> forall index: int :: |WithoutIndex(newPoll.movieOptions, index)| >= 1
      ensures |newPoll.movieOptions| > 1 ==> r
      ensures newPoll == EmptyForm ==> !r
    {
      |newPoll.movieOptions| > 1
    }
  }
}
