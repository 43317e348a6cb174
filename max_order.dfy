/**
 * What the bag relies on from `std::collections::BinaryHeap<ShufflePair<T>>`:
 * `pop` takes out one pair that no stored pair exceeds under the pair ordering.
 * The heap compares with `<=` and `>=`, which go through `partial_cmp`; on
 * comparable pairs that agrees with `Cmp`, which the contracts below use.
 * The heap's storage is seen as a sequence whose order means nothing; only
 * its multiset of pairs does.
 */
module MaxOrder {
  import opened ShufflePairs

  /** Every pair in `s` has a priority `cmp` can order. */
  ghost predicate AllComparable<T>(s: seq<ShufflePair<T>>) {
    forall i :: 0 <= i < |s| ==> Comparable(s[i])
  }

  /** No pair of `s` is greater than `p`. */
  predicate IsGreatest<T>(p: ShufflePair<T>, s: seq<ShufflePair<T>>)
    requires Comparable(p) && AllComparable(s)
  {
    forall i :: 0 <= i < |s| ==> Cmp(s[i], p) != Greater
  }

  /** The values carried by a sequence of pairs, in the same order. */
  function Values<T>(ps: seq<ShufflePair<T>>): seq<T> {
    seq(|ps|, i requires 0 <= i < |ps| => ps[i].value)
  }

  /** Pairs whose priorities are pairwise different. */
  ghost predicate DistinctPriorities<T>(s: seq<ShufflePair<T>>) {
    forall i, j :: 0 <= i < j < |s| ==> s[i].priority != s[j].priority
  }

  /**
   * One extract-max step: `p` is a greatest pair of `s` and `t` is what is
   * left once one occurrence of `p` is taken out.
   */
  ghost predicate IsPopStep<T>(s: seq<ShufflePair<T>>, p: ShufflePair<T>, t: seq<ShufflePair<T>>) {
    AllComparable(s) && Comparable(p) &&
    multiset(t) + multiset{p} == multiset(s) &&
    IsGreatest(p, s)
  }

  /** Comparable pairs in non-increasing priority order: none exceeds a pair before it. */
  ghost predicate NonIncreasing<T>(ps: seq<ShufflePair<T>>) {
    AllComparable(ps) &&
    forall i, j :: 0 <= i < j < |ps| ==> Cmp(ps[j], ps[i]) != Greater
  }

  /** A non-empty heap always has a pair to hand out: some stored pair is greatest. */
  lemma {:induction false} GreatestExists<T>(s: seq<ShufflePair<T>>)
    requires |s| > 0 && AllComparable(s)
    ensures exists i :: 0 <= i < |s| && IsGreatest(s[i], s)
  {
    if |s| == 1 {
      assert IsGreatest(s[0], s);
    } else {
      var tail := s[1..];
      GreatestExists(tail);
      var j :| 0 <= j < |tail| && IsGreatest(tail[j], tail);
      if Cmp(s[0], tail[j]) != Greater {
        assert forall i :: 1 <= i < |s| ==> s[i] == tail[i - 1];
        assert IsGreatest(s[j + 1], s);
      } else {
        assert forall i :: 1 <= i < |s| ==> s[i] == tail[i - 1];
        assert IsGreatest(s[0], s);
      }
    }
  }

  /** A member of `t` is at some index of `t`. */
  lemma MemberAt<T>(x: ShufflePair<T>, t: seq<ShufflePair<T>>)
    requires x in multiset(t)
    ensures exists k :: 0 <= k < |t| && t[k] == x
  {
    assert x in t;
  }

  /**
   * What a pop step takes out was stored, and nothing it leaves behind is
   * greater than it: the next pop can only hand out something no greater.
   */
  lemma PopStepBounds<T>(s: seq<ShufflePair<T>>, p: ShufflePair<T>, t: seq<ShufflePair<T>>)
    requires IsPopStep(s, p, t)
    ensures exists k :: 0 <= k < |s| && s[k] == p
    ensures AllComparable(t) && IsGreatest(p, t)
  {
    MemberAt(p, s);
    forall j | 0 <= j < |t|
      ensures Comparable(t[j]) && Cmp(t[j], p) != Greater
    {
      assert t[j] in multiset(t);
      MemberAt(t[j], s);
    }
  }

  /**
   * Successive pops come out by non-increasing priority: if every pair still
   * stored is no greater than the last one handed out, the next pop extends
   * the run without breaking its order, and again bounds what it leaves.
   */
  lemma PopStepExtendsRun<T>(run: seq<ShufflePair<T>>, s: seq<ShufflePair<T>>, p: ShufflePair<T>, t: seq<ShufflePair<T>>)
    requires NonIncreasing(run) && IsPopStep(s, p, t)
    requires |run| > 0 ==> Comparable(run[|run| - 1]) && IsGreatest(run[|run| - 1], s)
    ensures NonIncreasing(run + [p])
    ensures AllComparable(t) && IsGreatest(p, t)
    ensures multiset(t) + multiset(run + [p]) == multiset(s) + multiset(run)
  {
    PopStepBounds(s, p, t);
    var k :| 0 <= k < |s| && s[k] == p;
    var r := run + [p];
    forall i, j | 0 <= i < j < |r|
      ensures Cmp(r[j], r[i]) != Greater
    {
      if j == |run| && |run| > 0 {
        assert Cmp(s[k], run[|run| - 1]) != Greater;
        assert Cmp(run[|run| - 1], run[i]) != Greater || i == |run| - 1;
      }
    }
  }

  /**
   * Pops are determined by the contents: two heaps holding the same pairs,
   * with no two priorities equal, hand out the same pair and keep the same
   * remainder, wherever each of them stores its pairs.
   */
  lemma PopStepDeterministic<T>(
    s1: seq<ShufflePair<T>>, p1: ShufflePair<T>, t1: seq<ShufflePair<T>>,
    s2: seq<ShufflePair<T>>, p2: ShufflePair<T>, t2: seq<ShufflePair<T>>)
    requires IsPopStep(s1, p1, t1) && IsPopStep(s2, p2, t2)
    requires multiset(s1) == multiset(s2) && DistinctPriorities(s1)
    ensures p1 == p2 && multiset(t1) == multiset(t2)
  {
    PopStepBounds(s1, p1, t1);
    PopStepBounds(s2, p2, t2);
    var i :| 0 <= i < |s1| && s1[i] == p1;
    assert p2 in multiset(s1);
    MemberAt(p2, s1);
    var j :| 0 <= j < |s1| && s1[j] == p2;
    assert p1 in multiset(s2);
    MemberAt(p1, s2);
    assert Cmp(p1, p2) != Greater && Cmp(p2, p1) != Greater;
    assert s1[i].priority == s1[j].priority;
    assert i == j;
    assert multiset(t1) == multiset(s1) - multiset{p1};
    assert multiset(t2) == multiset(s2) - multiset{p2};
  }

  /**
   * Taking out the pair at `k` keeps the other priorities pairwise different,
   * and none of them equals the priority taken out.
   */
  lemma RemoveAtDistinct<T>(s: seq<ShufflePair<T>>, k: nat, rest: seq<ShufflePair<T>>)
    requires k < |s| && DistinctPriorities(s) && rest == s[..k] + s[k + 1..]
    ensures DistinctPriorities(rest)
    ensures forall m :: 0 <= m < |rest| ==> rest[m].priority != s[k].priority
  {
    assert forall i :: 0 <= i < |rest| ==> rest[i] == s[if i < k then i else i + 1];
  }

  /** Dropping the first pair keeps the order and the distinctness of the rest. */
  lemma DropFirst<T>(s: seq<ShufflePair<T>>)
    requires |s| > 0
    ensures NonIncreasing(s) ==> NonIncreasing(s[1..])
    ensures DistinctPriorities(s) ==> DistinctPriorities(s[1..])
  {
    assert forall i :: 0 <= i < |s| - 1 ==> s[1..][i] == s[i + 1];
  }

  /**
   * Distinct priorities survive any rearrangement: a sequence holding the same
   * pairs as one whose priorities are pairwise different has pairwise
   * different priorities too.
   */
  lemma {:induction false} DistinctAfterPermutation<T>(s: seq<ShufflePair<T>>, t: seq<ShufflePair<T>>)
    requires multiset(s) == multiset(t) && DistinctPriorities(s)
    ensures DistinctPriorities(t)
  {
    if |t| > 0 {
      var x := t[0];
      assert x in multiset(s);
      MemberAt(x, s);
      var k :| 0 <= k < |s| && s[k] == x;
      var rest := s[..k] + s[k + 1..];
      RemoveAtDistinct(s, k, rest);
      SplitFirst(t);
      SplitAt(s, k);
      CancelOne(multiset(t[1..]), multiset(rest), x);
      DistinctAfterPermutation(rest, t[1..]);
      forall i, j | 0 <= i < j < |t|
        ensures t[i].priority != t[j].priority
      {
        assert t[j] == t[1..][j - 1];
        if i > 0 {
          assert t[i] == t[1..][i - 1];
        } else {
          assert t[j] in multiset(rest);
          MemberAt(t[j], rest);
        }
      }
    }
  }

  /**
   * Two non-increasing arrangements of the same pairs, with pairwise
   * different priorities, start with the same pair.
   */
  lemma SameFirst<T>(a: seq<ShufflePair<T>>, b: seq<ShufflePair<T>>)
    requires |a| > 0 && NonIncreasing(a) && NonIncreasing(b)
    requires multiset(a) == multiset(b) && DistinctPriorities(a)
    ensures |b| > 0 && a[0] == b[0]
  {
    assert a[0] in multiset(b);
    MemberAt(a[0], b);
    var k :| 0 <= k < |b| && b[k] == a[0];
    assert b[0] in multiset(a);
    MemberAt(b[0], a);
    var j :| 0 <= j < |a| && a[j] == b[0];
    assert Cmp(b[k], b[0]) != Greater && Cmp(a[j], a[0]) != Greater;
    assert j == 0;
  }

  /**
   * A multiset of pairs with pairwise different priorities has only one
   * non-increasing arrangement: the order in which successive pops hand out
   * such pairs is fixed by the pairs alone.
   */
  lemma {:induction false} SortedUnique<T>(a: seq<ShufflePair<T>>, b: seq<ShufflePair<T>>)
    requires NonIncreasing(a) && NonIncreasing(b)
    requires multiset(a) == multiset(b) && DistinctPriorities(a)
    ensures a == b
  {
    if |a| == 0 {
      assert |b| == |multiset(b)| == 0;
    } else {
      SameFirst(a, b);
      SplitFirst(a);
      SplitFirst(b);
      CancelOne(multiset(a[1..]), multiset(b[1..]), a[0]);
      DropFirst(a);
      DropFirst(b);
      SortedUnique(a[1..], b[1..]);
      assert a == [a[0]] + a[1..] && b == [b[0]] + b[1..];
    }
  }

  /** Taking out the element at `k` takes one occurrence of it out of the multiset. */
  lemma SplitAt<U>(s: seq<U>, k: nat)
    requires k < |s|
    ensures multiset(s) == multiset(s[..k] + s[k + 1..]) + multiset{s[k]}
  {
    assert s == s[..k] + [s[k]] + s[k + 1..];
  }

  /** Concatenation is associative. */
  lemma AppendAssoc<U>(a: seq<U>, b: seq<U>, c: seq<U>)
    ensures (a + b) + c == a + (b + c)
  {
  }

  /** The first element and the rest make up the whole multiset. */
  lemma SplitFirst<U>(s: seq<U>)
    requires |s| > 0
    ensures multiset(s) == multiset(s[1..]) + multiset{s[0]}
  {
    assert s == [s[0]] + s[1..];
  }

  /** The values of a concatenation are the concatenation of the values. */
  lemma ValuesAppend<T>(a: seq<ShufflePair<T>>, b: seq<ShufflePair<T>>)
    ensures Values(a + b) == Values(a) + Values(b)
  {
  }

  /** The same element added to both sides of a multiset equation cancels. */
  lemma CancelOne<U>(a: multiset<U>, b: multiset<U>, x: U)
    requires a + multiset{x} == b + multiset{x}
    ensures a == b
  {
    assert a == (a + multiset{x}) - multiset{x};
    assert b == (b + multiset{x}) - multiset{x};
  }

  /** Taking out the pair at `k` takes one occurrence of its value out of the values. */
  lemma ValuesSplitAt<T>(b: seq<ShufflePair<T>>, k: nat)
    requires k < |b|
    ensures multiset(Values(b)) == multiset(Values(b[..k] + b[k + 1..])) + multiset{b[k].value}
  {
    ValuesAppend(b[..k], b[k + 1..]);
    assert Values(b[..k]) + Values(b[k + 1..]) == Values(b)[..k] + Values(b)[k + 1..];
    SplitAt(Values(b), k);
  }

  /**
   * Rearranging pairs rearranges their values: no value is lost, duplicated
   * or invented when the pairs are the same multiset.
   */
  lemma {:induction false} ValuesOfPermutation<T>(a: seq<ShufflePair<T>>, b: seq<ShufflePair<T>>)
    requires multiset(a) == multiset(b)
    ensures multiset(Values(a)) == multiset(Values(b))
  {
    if |a| == 0 {
      assert |b| == |multiset(b)| == 0;
    } else {
      var x := a[0];
      assert x in multiset(b);
      MemberAt(x, b);
      var k :| 0 <= k < |b| && b[k] == x;
      var rest := b[..k] + b[k + 1..];
      SplitFirst(a);
      SplitAt(b, k);
      CancelOne(multiset(a[1..]), multiset(rest), x);
      ValuesOfPermutation(a[1..], rest);
      assert Values(a[1..]) == Values(a)[1..];
      SplitFirst(Values(a));
      ValuesSplitAt(b, k);
    }
  }
}
