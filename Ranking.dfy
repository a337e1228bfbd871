/**
 * Ordering a list by a numeric key, largest first, as `list.sort((a, b) => key(b) - key(a))`
 * does. `Array.prototype.sort` is stable (ECMAScript 2019 and later), so elements with equal
 * keys keep their relative order; `SortDesc` is that ordering as a function, and `SortInPlace`
 * is an in-place insertion sort on an array proved to produce exactly it.
 */
module Ranking {

  /** Keys never increase from left to right. */
  ghost predicate NonIncreasing<T>(s: seq<T>, key: T -> int) {
    forall i, j :: 0 <= i < j < |s| ==> key(s[i]) >= key(s[j])
  }

  /** The elements of `s` whose key is `v`, in their order in `s`. */
  function WithKey<T>(s: seq<T>, key: T -> int, v: int): seq<T> {
    if s == [] then []
    else (if key(s[0]) == v then [s[0]] else []) + WithKey(s[1..], key, v)
  }

  /** Put `x` in front of the first element whose key is not larger than its own. */
  function Insert<T>(x: T, t: seq<T>, key: T -> int): (r: seq<T>)
    ensures |r| == |t| + 1
  {
    if t == [] then [x]
    else if key(t[0]) <= key(x) then [x] + t
    else [t[0]] + Insert(x, t[1..], key)
  }

  /** One insertion adds `x` and keeps every other element. */
  lemma {:induction false} InsertPermutes<T>(x: T, t: seq<T>, key: T -> int)
    ensures multiset(Insert(x, t, key)) == multiset(t) + multiset{x}
  {
    if t != [] && key(t[0]) > key(x) {
      InsertPermutes(x, t[1..], key);
      assert t == [t[0]] + t[1..];
    }
  }

  /** A key bound that holds for `x` and for every element of `t` holds after the insertion. */
  lemma {:induction false} InsertBounded<T>(x: T, t: seq<T>, key: T -> int, b: int)
    requires key(x) <= b
    requires forall m :: 0 <= m < |t| ==> key(t[m]) <= b
    ensures forall m :: 0 <= m < |Insert(x, t, key)| ==> key(Insert(x, t, key)[m]) <= b
  {
    if t != [] && key(t[0]) > key(x) {
      var u := t[1..];
      assert forall m :: 0 <= m < |u| ==> key(u[m]) <= b by {
        forall m | 0 <= m < |u| ensures key(u[m]) <= b { assert u[m] == t[m + 1]; }
      }
      InsertBounded(x, u, key, b);
      var rest := Insert(x, u, key);
      assert Insert(x, t, key) == [t[0]] + rest;
      forall m | 0 <= m < |rest| + 1 ensures key(([t[0]] + rest)[m]) <= b {
        if m > 0 { assert ([t[0]] + rest)[m] == rest[m - 1]; }
      }
    }
  }

  /** Putting an element in front of a list with non-increasing keys, none larger than its
      own, keeps the keys non-increasing. */
  lemma ConsNonIncreasing<T>(h: T, rest: seq<T>, key: T -> int)
    requires NonIncreasing(rest, key)
    requires forall m :: 0 <= m < |rest| ==> key(rest[m]) <= key(h)
    ensures NonIncreasing([h] + rest, key)
  {
    var r := [h] + rest;
    forall i, j | 0 <= i < j < |r| ensures key(r[i]) >= key(r[j]) {
      assert r[j] == rest[j - 1];
      if i > 0 { assert r[i] == rest[i - 1]; }
    }
  }

  /** Inserting into a list whose keys never increase gives such a list again. */
  lemma {:induction false} InsertNonIncreasing<T>(x: T, t: seq<T>, key: T -> int)
    requires NonIncreasing(t, key)
    ensures NonIncreasing(Insert(x, t, key), key)
  {
    if t == [] {
      assert Insert(x, t, key) == [x];
    } else if key(t[0]) <= key(x) {
      ConsNonIncreasing(x, t, key);
    } else {
      var u := t[1..];
      assert NonIncreasing(u, key) by {
        forall i, j | 0 <= i < j < |u| ensures key(u[i]) >= key(u[j]) {
          assert u[i] == t[i + 1] && u[j] == t[j + 1];
        }
      }
      assert forall m :: 0 <= m < |u| ==> key(u[m]) <= key(t[0]) by {
        forall m | 0 <= m < |u| ensures key(u[m]) <= key(t[0]) { assert u[m] == t[m + 1]; }
      }
      InsertNonIncreasing(x, u, key);
      InsertBounded(x, u, key, key(t[0]));
      ConsNonIncreasing(t[0], Insert(x, u, key), key);
    }
  }

  /** The stable descending order of `s` by `key`: a permutation of `s`. */
  function SortDesc<T>(s: seq<T>, key: T -> int): (r: seq<T>)
    ensures |r| == |s|
    ensures multiset(r) == multiset(s)
  {
    if s == [] then []
    else
      assert s == [s[0]] + s[1..];
      InsertPermutes(s[0], SortDesc(s[1..], key), key);
      Insert(s[0], SortDesc(s[1..], key), key)
  }

  /** The sorted list's keys never increase. */
  lemma {:induction false} SortDescNonIncreasing<T>(s: seq<T>, key: T -> int)
    ensures NonIncreasing(SortDesc(s, key), key)
  {
    if s != [] {
      SortDescNonIncreasing(s[1..], key);
      InsertNonIncreasing(s[0], SortDesc(s[1..], key), key);
    }
  }

  /** `WithKey` on a list with a known head: the head if it has key `v`, then the rest. */
  lemma WithKeyCons<T>(h: T, t: seq<T>, key: T -> int, v: int)
    ensures WithKey([h] + t, key, v) == (if key(h) == v then [h] else []) + WithKey(t, key, v)
  {
    assert ([h] + t)[0] == h && ([h] + t)[1..] == t;
  }

  /** Inserting `x` adds it to the front of its own key group and leaves the other groups as
      they were. */
  lemma {:induction false} WithKeyInsert<T>(x: T, t: seq<T>, key: T -> int, v: int)
    ensures WithKey(Insert(x, t, key), key, v)
            == (if key(x) == v then [x] else []) + WithKey(t, key, v)
  {
    if t == [] {
      assert Insert(x, t, key) == [x] + t;
      WithKeyCons(x, t, key, v);
    } else if key(t[0]) <= key(x) {
      WithKeyCons(x, t, key, v);
    } else {
      var rest := Insert(x, t[1..], key);
      assert Insert(x, t, key) == [t[0]] + rest;
      assert t == [t[0]] + t[1..];
      WithKeyCons(t[0], rest, key, v);
      WithKeyCons(t[0], t[1..], key, v);
      WithKeyInsert(x, t[1..], key, v);
      var a := if key(t[0]) == v then [t[0]] else [];
      var b := if key(x) == v then [x] else [];
      var w := WithKey(t[1..], key, v);
      assert a == [] || b == [];
      assert a + (b + w) == b + (a + w);
    }
  }

  /** Stability: among elements with equal keys the sorted list keeps the original order. */
  lemma {:induction false} SortDescStable<T>(s: seq<T>, key: T -> int, v: int)
    ensures WithKey(SortDesc(s, key), key, v) == WithKey(s, key, v)
  {
    if s != [] {
      SortDescStable(s[1..], key, v);
      WithKeyInsert(s[0], SortDesc(s[1..], key), key, v);
    }
  }

  /** The first element of the sorted list has a key at least that of every element. */
  lemma SortDescFirstIsMax<T>(s: seq<T>, key: T -> int, x: T)
    requires x in s
    ensures |SortDesc(s, key)| > 0
    ensures key(SortDesc(s, key)[0]) >= key(x)
  {
    var r := SortDesc(s, key);
    SortDescNonIncreasing(s, key);
    assert x in multiset(s);
    assert x in multiset(r);
    var k :| 0 <= k < |r| && r[k] == x;
    assert k == 0 || key(r[0]) >= key(r[k]);
  }

  /** Where `x` lands: after the `k` elements with a larger key, before the rest. */
  lemma {:induction false} InsertSplit<T>(x: T, t: seq<T>, key: T -> int, k: nat)
    requires k <= |t|
    requires forall m :: 0 <= m < k ==> key(t[m]) > key(x)
    requires k == |t| || key(t[k]) <= key(x)
    ensures forall m :: 0 <= m < k ==> Insert(x, t, key)[m] == t[m]
    ensures Insert(x, t, key)[k] == x
    ensures forall m :: k < m <= |t| ==> Insert(x, t, key)[m] == t[m - 1]
  {
    if k == 0 {
      assert Insert(x, t, key) == [x] + t;
    } else {
      var u := t[1..];
      assert forall m :: 0 <= m < k - 1 ==> key(u[m]) > key(x) by {
        forall m | 0 <= m < k - 1 ensures key(u[m]) > key(x) { assert u[m] == t[m + 1]; }
      }
      assert k - 1 == |u| || key(u[k - 1]) <= key(x);
      InsertSplit(x, u, key, k - 1);
      var ins := Insert(x, u, key);
      var r := Insert(x, t, key);
      assert r == [t[0]] + ins;
      forall m | 0 < m <= |t| ensures r[m] == ins[m - 1] { }
    }
  }

  /** The array contents after one insertion step, as a sequence: `pre` is `o` with
      `o[i + 1..j]` moved one place left, and `o[i]` then goes into the gap at `j - 1`. */
  lemma ShiftResult<T>(o: seq<T>, pre: seq<T>, i: nat, j: nat, key: T -> int)
    requires i < j <= |o| == |pre|
    requires forall m :: 0 <= m < i ==> pre[m] == o[m]
    requires forall m :: i <= m < j - 1 ==> pre[m] == o[m + 1]
    requires forall m :: j <= m < |o| ==> pre[m] == o[m]
    requires forall m :: i < m < j ==> key(o[m]) > key(o[i])
    requires j == |o| || key(o[j]) <= key(o[i])
    ensures pre[j - 1 := o[i]][..i] == o[..i]
    ensures pre[j - 1 := o[i]][i..] == Insert(o[i], o[i + 1..], key)
  {
    var t := o[i + 1..];
    var k := j - 1 - i;
    assert forall m :: 0 <= m < k ==> key(t[m]) > key(o[i]) by {
      forall m | 0 <= m < k ensures key(t[m]) > key(o[i]) {
        assert t[m] == o[i + 1 + m];
      }
    }
    InsertSplit(o[i], t, key, k);
    var r := Insert(o[i], t, key);
    var b := pre[j - 1 := o[i]];
    assert b[i..] == r by {
      forall m | 0 <= m < |r| ensures b[i..][m] == r[m] {
        if m < k {
          assert r[m] == t[m] == o[i + 1 + m];
        } else if m > k {
          assert r[m] == t[m - 1] == o[i + m];
        }
      }
    }
  }

  /** One insertion step: `a[i]` is moved into the sorted suffix behind it by shifting the
      elements with a larger key one place to the left. */
  method ShiftInsert<T>(a: array<T>, i: nat, key: T -> int)
    requires i < a.Length
    modifies a
    ensures a[..i] == old(a[..i])
    ensures a[i..] == Insert(old(a[i]), old(a[i + 1..]), key)
  {
    ghost var o := a[..];
    var x := a[i];
    var j := i + 1;
    while j < a.Length && key(a[j]) > key(x)
      invariant i + 1 <= j <= a.Length
      invariant forall m :: 0 <= m < i ==> a[m] == o[m]
      invariant forall m :: i <= m < j - 1 ==> a[m] == o[m + 1]
      invariant forall m :: j <= m < a.Length ==> a[m] == o[m]
      invariant forall m :: i < m < j ==> key(o[m]) > key(x)
    {
      a[j - 1] := a[j];
      j := j + 1;
    }
    ghost var pre := a[..];
    a[j - 1] := x;
    assert a[..] == pre[j - 1 := x];
    ShiftResult(o, pre, i, j, key);
    assert a[..i] == a[..][..i] && a[i..] == a[..][i..];
    assert old(a[..i]) == o[..i] && old(a[i + 1..]) == o[i + 1..];
  }

  /** Sorts `a` in place, largest key first, stably: the array ends up holding `SortDesc` of
      what it held. Insertion sort from the right: the suffix `a[i..]` is kept sorted and the
      element in front of it is moved into place. */
  method SortInPlace<T>(a: array<T>, key: T -> int)
    modifies a
    ensures a[..] == SortDesc(old(a[..]), key)
  {
    ghost var s := a[..];
    var i := a.Length;
    while i > 0
      invariant 0 <= i <= a.Length
      invariant a[..i] == s[..i]
      invariant a[i..] == SortDesc(s[i..], key)
    {
      i := i - 1;
      assert a[i] == s[i] by { assert a[..i + 1][i] == s[..i + 1][i]; }
      assert a[..i] == s[..i] by { assert a[..i] == a[..i + 1][..i]; }
      assert s[i..][1..] == s[i + 1..];
      ShiftInsert(a, i, key);
    }
    assert s[0..] == s;
  }

  /** A displayed row of a ranking: `#rank`, the item, and whether it is the highlighted
      leader (`index === 0`). */
  datatype RankRow<T> = RankRow(rank: nat, item: T, leading: bool)

  /** `list.map((item, index) => ...)` for a ranking: row `i` shows rank `i + 1`, and only the
      first row is highlighted. */
  function Ranked<T>(s: seq<T>): (r: seq<RankRow<T>>)
    ensures |r| == |s|
    ensures forall i :: 0 <= i < |r| ==> r[i].item == s[i] && r[i].rank == i + 1
    ensures forall i :: 0 <= i < |r| ==> (r[i].leading <==> i == 0)
  {
    seq(|s|, i requires 0 <= i < |s| => RankRow(i + 1, s[i], i == 0))
  }
}
