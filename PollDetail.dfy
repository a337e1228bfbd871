/**
 * The poll detail page: the local re-tally after a vote, the vote share of an option, the
 * guarded option selection and the sidebar ranking, which sorts the poll's own option list in
 * place.
 */
module PollDetail {
  import opened Wrappers
  import opened Types
  import opened Lists
  import Countdown
  import Ranking

  /** No two options share an id. */
  ghost predicate DistinctIds(options: seq<PollOption>) {
    forall i, j :: 0 <= i < j < |options| ==> options[i].id != options[j].id
  }

  /** Some option has id `id`. */
  ghost predicate HasId(options: seq<PollOption>, id: string) {
    exists i :: 0 <= i < |options| && options[i].id == id
  }

  /** How many options have id `id`. */
  function CountId(options: seq<PollOption>, id: string): (n: nat)
    ensures n <= |options|
    ensures n == 0 <==> !HasId(options, id)
  {
    if options == [] then 0
    else
      var rest := CountId(options[1..], id);
      assert HasId(options, id) <==> options[0].id == id || HasId(options[1..], id) by {
        if HasId(options[1..], id) {
          var i :| 0 <= i < |options[1..]| && options[1..][i].id == id;
          assert options[i + 1].id == id;
        }
        if HasId(options, id) && options[0].id != id {
          var i :| 0 <= i < |options| && options[i].id == id;
          assert options[1..][i - 1].id == id;
        }
      }
      (if options[0].id == id then 1 else 0) + rest
  }

  /** The option list after a vote for `sel` by a user whose recorded vote was `prev`
      (the `map` of the vote handler): the chosen option gains a vote unless it already held the
      user's vote, the previously voted option loses one, every other option is kept, and the
      list keeps its length and order. */
  function Retally(options: seq<PollOption>, sel: string, prev: Option<string>): (r: seq<PollOption>)
    ensures |r| == |options|
    ensures forall i :: 0 <= i < |r| ==> r[i].id == options[i].id && r[i].movie == options[i].movie
    ensures forall i :: 0 <= i < |r| && options[i].id == sel && prev != Some(sel) ==>
              r[i].votes == options[i].votes + 1
    ensures forall i :: 0 <= i < |r| && options[i].id == sel && prev == Some(sel) ==>
              r[i] == options[i]
    ensures forall i :: 0 <= i < |r| && options[i].id != sel && prev == Some(options[i].id) ==>
              r[i].votes == options[i].votes - 1
    ensures forall i :: 0 <= i < |r| && options[i].id != sel && prev != Some(options[i].id) ==>
              r[i] == options[i]
  {
    if options == [] then []
    else
      var o := options[0];
      var o' := if o.id == sel then o.(votes := o.votes + (if prev == Some(sel) then 0 else 1))
                else if prev == Some(o.id) then o.(votes := o.votes - 1)
                else o;
      [o'] + Retally(options[1..], sel, prev)
  }

  /** The poll after the vote handler's update: the user's vote is `sel`, the total rises by one
      exactly when no (truthy) earlier vote was recorded, the options are re-tallied, and no
      other field changes. */
  function ApplyVote(p: Poll, sel: string): (q: Poll)
    ensures q.userVote == Some(sel)
    ensures q.totalVotes == p.totalVotes + (if TruthyString(p.userVote) then 0 else 1)
    ensures q.options == Retally(p.options, sel, p.userVote)
    ensures q.(userVote := p.userVote, totalVotes := p.totalVotes, options := p.options) == p
  {
    p.(userVote := Some(sel),
       totalVotes := p.totalVotes + (if TruthyString(p.userVote) then 0 else 1),
       options := Retally(p.options, sel, p.userVote))
  }

  /** The sum of the re-tallied votes: each option with the chosen id gains one (unless it was
      already the user's vote) and each option with the previous vote's id loses one. */
  lemma {:induction false} SumRetally(options: seq<PollOption>, sel: string, prev: Option<string>)
    ensures SumOf(Retally(options, sel, prev), OptionVotes)
            == SumOf(options, OptionVotes)
               + (if prev == Some(sel) then 0 else CountId(options, sel))
               - (if prev.Some? && prev.value != sel then CountId(options, prev.value) else 0)
  {
    if options != [] {
      var r := Retally(options, sel, prev);
      assert r[1..] == Retally(options[1..], sel, prev);
      SumRetally(options[1..], sel, prev);
    }
  }

  /** With distinct ids, an id that occurs occurs once. */
  lemma {:induction false} CountIdDistinct(options: seq<PollOption>, id: string)
    requires DistinctIds(options) && HasId(options, id)
    ensures CountId(options, id) == 1
  {
    if options[0].id == id {
      forall i | 0 <= i < |options[1..]| ensures options[1..][i].id != id {
        assert options[1..][i] == options[i + 1];
      }
    } else {
      var i :| 0 <= i < |options| && options[i].id == id;
      assert options[1..][i - 1].id == id;
      CountIdDistinct(options[1..], id);
    }
  }

  /** The state in which the page's tally is consistent: distinct option ids, no negative count,
      the total equal to the sum of the option votes, and a recorded vote (if any) that is a
      truthy id of an option holding at least that vote. */
  ghost predicate Consistent(p: Poll) {
    DistinctIds(p.options)
    && (forall i :: 0 <= i < |p.options| ==> p.options[i].votes >= 0)
    && p.totalVotes == SumOf(p.options, OptionVotes)
    && (p.userVote.Some? ==>
          p.userVote.value != ""
          && exists i :: 0 <= i < |p.options| && p.options[i].id == p.userVote.value && p.options[i].votes >= 1)
  }

  /** After the re-tally no count is negative, provided none was before and the previous vote
      names an option holding at least one vote. */
  lemma RetallyNonNegative(options: seq<PollOption>, sel: string, prev: Option<string>)
    requires DistinctIds(options)
    requires forall i :: 0 <= i < |options| ==> options[i].votes >= 0
    requires prev.Some? ==>
               exists i :: 0 <= i < |options| && options[i].id == prev.value && options[i].votes >= 1
    ensures forall i :: 0 <= i < |options| ==> Retally(options, sel, prev)[i].votes >= 0
  {
    var r := Retally(options, sel, prev);
    forall i | 0 <= i < |options| ensures r[i].votes >= 0 {
      if options[i].id != sel && prev == Some(options[i].id) {
        var m :| 0 <= m < |options| && options[m].id == prev.value && options[m].votes >= 1;
        assert m == i;
      }
    }
  }

  /** After the re-tally the total still equals the sum of the option votes. */
  lemma RetallyKeepsSum(p: Poll, sel: string)
    requires DistinctIds(p.options) && HasId(p.options, sel)
    requires p.totalVotes == SumOf(p.options, OptionVotes)
    requires p.userVote.Some? ==> p.userVote.value != "" && HasId(p.options, p.userVote.value)
    ensures ApplyVote(p, sel).totalVotes == SumOf(ApplyVote(p, sel).options, OptionVotes)
  {
    SumRetally(p.options, sel, p.userVote);
    CountIdDistinct(p.options, sel);
    if p.userVote.Some? && p.userVote.value != sel {
      CountIdDistinct(p.options, p.userVote.value);
    }
  }

  /** Conservation: voting for an existing option keeps the tally consistent, so the total still
      equals the sum of the option votes and no count goes negative. */
  lemma VotePreservesConsistency(p: Poll, sel: string)
    requires Consistent(p)
    requires sel != "" && HasId(p.options, sel)
    ensures Consistent(ApplyVote(p, sel))
  {
    var q := ApplyVote(p, sel);
    var o := p.options;
    var r := q.options;
    assert DistinctIds(r) by {
      forall i, j | 0 <= i < j < |r| ensures r[i].id != r[j].id {
        assert r[i].id == o[i].id && r[j].id == o[j].id;
      }
    }
    assert forall i :: 0 <= i < |r| ==> r[i].votes >= 0 by {
      RetallyNonNegative(o, sel, p.userVote);
    }
    assert q.totalVotes == SumOf(r, OptionVotes) by {
      if p.userVote.Some? {
        var m :| 0 <= m < |o| && o[m].id == p.userVote.value && o[m].votes >= 1;
        assert HasId(o, p.userVote.value);
      }
      RetallyKeepsSum(p, sel);
    }
    var k :| 0 <= k < |o| && o[k].id == sel;
    assert r[k].votes >= 1 by {
      if p.userVote == Some(sel) {
        var m :| 0 <= m < |o| && o[m].id == sel && o[m].votes >= 1;
        assert m == k;
      }
    }
    assert r[k].id == sel;
  }

  /** `getPercentage`: the share of the total held by `votes`, in percent, or 0 when there are
      no votes at all. */
  function Percentage(votes: int, total: int): (r: real)
    ensures total <= 0 ==> r == 0.0
    ensures total > 0 ==> r * (total as real) == (votes as real) * 100.0
    ensures total > 0 && 0 <= votes <= total ==> 0.0 <= r <= 100.0
  {
    if total > 0 then
      var r := (votes as real) / (total as real) * 100.0;
      assert r * (total as real) == (votes as real) * 100.0;
      assert 0 <= votes <= total ==> 0.0 <= (votes as real) / (total as real) <= 1.0;
      r
    else 0.0
  }

  /** The page's state. */
  class PollDetailPage {
    var poll: Option<Poll>
    var selectedOption: string
    var hasVoted: bool
    var isSubmitting: bool

    constructor ()
      ensures poll == None && selectedOption == "" && !hasVoted && !isSubmitting
    {
      poll := None;
      selectedOption := "";
      hasVoted := false;
      isSubmitting := false;
    }

    /** The load effect: the poll is shown, marked as voted exactly when it records a
        (truthy) vote, which then becomes the selection. */
    method Load(p: Poll)
      modifies this
      ensures poll == Some(p) && isSubmitting == old(isSubmitting)
      ensures hasVoted == TruthyString(p.userVote)
      ensures selectedOption == (if TruthyString(p.userVote) then p.userVote.value else "")
    {
      poll := Some(p);
      hasVoted := TruthyString(p.userVote);
      selectedOption := if TruthyString(p.userVote) then p.userVote.value else "";
    }

    /** Clicking option `id` with `timeLeft` milliseconds to the deadline: the selection changes
        only while the poll is open and the user has not voted; nothing else changes. */
    method ClickOption(id: string, timeLeft: int)
      modifies this
      ensures selectedOption == (if timeLeft > 0 && !hasVoted then id else old(selectedOption))
      ensures poll == old(poll) && hasVoted == old(hasVoted) && isSubmitting == old(isSubmitting)
    {
      if !Countdown.Remaining(timeLeft).isExpired && !hasVoted {
        selectedOption := id;
      }
    }

    /** The vote handler. With no selection nothing changes. Otherwise the page is marked as
        voted, no longer submitting, and the poll records the vote through `ApplyVote`. */
    method SubmitVote()
      modifies this
      ensures old(selectedOption) == "" ==>
                poll == old(poll) && hasVoted == old(hasVoted) && isSubmitting == old(isSubmitting)
      ensures old(selectedOption) != "" ==>
                hasVoted && !isSubmitting
                && poll == (if old(poll).Some? then Some(ApplyVote(old(poll).value, old(selectedOption))) else None)
      ensures selectedOption == old(selectedOption)
    {
      if selectedOption == "" {
        return;
      }
      isSubmitting := true;
      hasVoted := true;
      isSubmitting := false;
      if poll.Some? {
        poll := Some(ApplyVote(poll.value, selectedOption));
      }
    }

    /** The sidebar's `poll.options.sort(...)`: the poll's own option list is put into the stable
        order of largest vote count first; nothing else changes. */
    method SortSidebar()
      modifies this
      ensures poll.Some? <==> old(poll).Some?
      ensures poll.Some? ==>
                poll == Some(old(poll).value.(options := Ranking.SortDesc(old(poll).value.options, OptionVotes)))
      ensures selectedOption == old(selectedOption) && hasVoted == old(hasVoted)
      ensures isSubmitting == old(isSubmitting)
    {
      if poll.Some? {
        var options := poll.value.options;
        var a := new PollOption[|options|](i requires 0 <= i < |options| => options[i]);
        assert a[..] == options;
        Ranking.SortInPlace(a, OptionVotes);
        poll := Some(poll.value.(options := a[..]));
      }
    }
  }

  /** What the page offers for the current state: the submit button only while the poll is open
      and not yet voted on, enabled only with a selection; the results link only once closed. */
  datatype Controls = Controls(showSubmit: bool, submitEnabled: bool, resultsTarget: Option<string>)

  function PageControls(pollId: string, timeLeft: int, hasVoted: bool, selected: string): (c: Controls)
    ensures c.showSubmit <==> timeLeft > 0 && !hasVoted
    ensures c.submitEnabled <==> selected != ""
    ensures c.resultsTarget.Some? <==> timeLeft <= 0
    ensures c.resultsTarget.Some? ==> c.resultsTarget.value == "/results/" + pollId
    ensures c.showSubmit ==> c.resultsTarget.None?
  {
    var expired := Countdown.Remaining(timeLeft).isExpired;
    Controls(!expired && !hasVoted, selected != "",
             if expired then Some("/results/" + pollId) else None)
  }
}
