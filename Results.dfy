/**
 * The results page: the options ranked by votes on a copy of the poll's list, the winner, and
 * each option's share of the total.
 */
module Results {
  import opened Wrappers
  import opened Types
  import opened Lists
  import Ranking

  /** `[...poll.options].sort((a, b) => b.votes - a.votes)`; the poll itself is a value and is
      left as it was. */
  function SortedOptions(p: Poll): (r: seq<PollOption>)
    ensures |r| == |p.options|
    ensures forall i, j :: 0 <= i < j < |r| ==> r[i].votes >= r[j].votes
  {
    Ranking.SortDescNonIncreasing(p.options, OptionVotes);
    Ranking.SortDesc(p.options, OptionVotes)
  }

  /** The sorted options are a permutation of the poll's options, with counts never increasing
      down the list. */
  lemma SortedOptionsRanked(p: Poll)
    ensures multiset(SortedOptions(p)) == multiset(p.options)
    ensures forall i, j :: 0 <= i < j < |SortedOptions(p)| ==>
              SortedOptions(p)[i].votes >= SortedOptions(p)[j].votes
  {
    Ranking.SortDescNonIncreasing(p.options, OptionVotes);
  }

  /** Options with equal counts keep their relative order from the poll's list. */
  lemma SortedOptionsStable(p: Poll, v: int)
    ensures Ranking.WithKey(SortedOptions(p), OptionVotes, v) == Ranking.WithKey(p.options, OptionVotes, v)
  {
    Ranking.SortDescStable(p.options, OptionVotes, v);
  }

  /** `sortedOptions[0]`: absent for a poll with no options (where the page would fail on
      `winner.movie`), otherwise an option of the poll with at least as many votes as any. */
  function Winner(p: Poll): (w: Option<PollOption>)
    ensures w.None? <==> p.options == []
    ensures w.Some? ==> w.value in p.options
    ensures w.Some? ==> forall o :: o in p.options ==> w.value.votes >= o.votes
  {
    var s := SortedOptions(p);
    if s == [] then None
    else
      assert s[0] in multiset(p.options);
      forall o | o in p.options ensures s[0].votes >= o.votes {
        Ranking.SortDescFirstIsMax(p.options, OptionVotes, o);
      }
      Some(s[0])
  }

  /** `(votes / poll.totalVotes) * 100`, which has no guard: a zero total gives no number
      (`NaN` or an infinity), here `None`. */
  function Share(votes: int, total: int): (r: Option<real>)
    ensures r.None? <==> total == 0
    ensures r.Some? ==> r.value * (total as real) == (votes as real) * 100.0
    ensures r.Some? && 0 <= votes <= total ==> 0.0 <= r.value <= 100.0
  {
    if total == 0 then None
    else
      var x := (votes as real) / (total as real) * 100.0;
      assert x * (total as real) == (votes as real) * 100.0;
      assert 0 <= votes <= total ==> 0.0 <= (votes as real) / (total as real) <= 1.0;
      Some(x)
  }

  /** The sum of the shares of `options` out of `total`. */
  function ShareSum(options: seq<PollOption>, total: int): real
    requires total != 0
  {
    if options == [] then 0.0 else Share(options[0].votes, total).value + ShareSum(options[1..], total)
  }

  lemma {:induction false} ShareSumScaled(options: seq<PollOption>, total: int)
    requires total != 0
    ensures ShareSum(options, total) * (total as real) == (SumOf(options, OptionVotes) as real) * 100.0
  {
    if options != [] {
      ShareSumScaled(options[1..], total);
      var a := Share(options[0].votes, total).value;
      var b := ShareSum(options[1..], total);
      assert (a + b) * (total as real) == a * (total as real) + b * (total as real);
    }
  }

  /** When the total is the sum of the option votes and positive, the shown shares add up to
      100 percent. */
  lemma SharesSumTo100(p: Poll)
    requires p.totalVotes > 0 && p.totalVotes == SumOf(p.options, OptionVotes)
    ensures ShareSum(SortedOptions(p), p.totalVotes) == 100.0
  {
    var s := SortedOptions(p);
    SumOfPermutation(s, p.options, OptionVotes);
    SharesOfSum(s, p.totalVotes);
  }

  /** The shares of a list out of a positive total equal to its vote sum add up to 100. */
  lemma SharesOfSum(options: seq<PollOption>, total: int)
    requires total > 0 && SumOf(options, OptionVotes) == total
    ensures ShareSum(options, total) == 100.0
  {
    ShareSumScaled(options, total);
    CancelFactor(ShareSum(options, total), SumOf(options, OptionVotes) as real, total as real);
  }

  /** `x * t == s * 100` with `s == t > 0` means `x == 100`. */
  lemma CancelFactor(x: real, s: real, t: real)
    requires t > 0.0 && s == t && x * t == s * 100.0
    ensures x == 100.0
  {
    assert (x - 100.0) * t == 0.0;
  }

  /** The ranking rows: rank `i + 1`, and the only row marked as the winner is the first, which
      holds the winning option. */
  lemma ResultRows(p: Poll)
    ensures |Ranking.Ranked(SortedOptions(p))| == |p.options|
    ensures forall i :: 0 <= i < |p.options| ==>
              Ranking.Ranked(SortedOptions(p))[i].rank == i + 1
              && (Ranking.Ranked(SortedOptions(p))[i].leading <==> i == 0)
    ensures p.options != [] ==> Some(Ranking.Ranked(SortedOptions(p))[0].item) == Winner(p)
  {
  }
}
