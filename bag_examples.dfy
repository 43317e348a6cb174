/**
 * Uses of `ShuffleBag`, proved from the contracts of `ShuffleBag` alone: the
 * crate's doc examples, one round of its tests, and two further scenarios
 * (a pop past the end, and reproducibility under `with_u64`).
 */
module BagExamples {
  import opened Options
  import opened ShufflePairs
  import opened MaxOrder
  import opened ShuffleBags

  /**
   * The pushing half of a test round: one `push` per value, in order; the k-th
   * value gets the generator's next draw after the k - 1 before it.
   */
  method PushAll<T>(b: ShuffleBag<T>, values: seq<T>)
    requires b.Valid()
    modifies b
    ensures b.Valid() && b.drawn == old(b.drawn) + |values| && b.popped == old(b.popped)
    ensures b.pushed == old(b.pushed) + Pushed(values, b.rng, old(b.drawn))
    ensures b.Contents() == old(b.Contents()) + multiset(Pushed(values, b.rng, old(b.drawn)))
  {
    ghost var d0, pushed0, popped0, contents0 := b.drawn, b.pushed, b.popped, b.Contents();
    for k := 0 to |values|
      invariant b.Valid() && b.drawn == d0 + k && b.popped == popped0
      invariant b.pushed == pushed0 + Pushed(values[..k], b.rng, d0)
      invariant b.Contents() == contents0 + multiset(Pushed(values[..k], b.rng, d0))
    {
      b.Push(values[k]);
      PushedSnoc(values, k, b.rng, d0);
      AppendAssoc(pushed0, Pushed(values[..k], b.rng, d0), [ShufflePair(values[k], b.rng(d0 + k))]);
    }
    assert values[..|values|] == values;
  }

  /**
   * The popping half of a test round: `n` pops from a bag holding `n` pairs.
   * Every pop succeeds, the pairs come out by non-increasing priority, they
   * are exactly the pairs that were stored, and the bag ends empty.
   */
  method PopAll<T>(b: ShuffleBag<T>, n: nat) returns (out: seq<T>)
    requires b.Valid() && b.Len() == n
    modifies b
    ensures b.Valid() && b.Len() == 0
    ensures b.pushed == old(b.pushed) && b.drawn == old(b.drawn)
    ensures |b.popped| == |old(b.popped)| + n && b.popped[..|old(b.popped)|] == old(b.popped)
    ensures var drained := b.popped[|old(b.popped)|..];
      multiset(drained) == old(b.Contents()) &&
      NonIncreasing(drained) &&
      out == Values(drained)
  {
    out := [];
    ghost var d0, pushed0, popped0, contents0 := b.drawn, b.pushed, b.popped, b.Contents();
    ghost var drained: seq<ShufflePair<T>> := [];
    for k := 0 to n
      invariant b.Valid() && b.pushed == pushed0 && b.drawn == d0
      invariant b.popped == popped0 + drained && |drained| == k
      invariant |b.bag| == n - k
      invariant multiset(b.bag) + multiset(drained) == contents0
      invariant NonIncreasing(drained) && out == Values(drained)
      invariant k > 0 ==> IsGreatest(drained[k - 1], b.bag)
    {
      ghost var before := b.bag;
      var r, taken := b.Pop();
      ghost var p := taken.value;
      PopStepExtendsRun(drained, before, p, b.bag);
      ValuesAppend(drained, [p]);
      AppendAssoc(popped0, drained, [p]);
      assert multiset(b.bag) + multiset(drained + [p]) == contents0;
      drained := drained + [p];
      out := out + [r.value];
    }
    assert b.popped[|popped0|..] == drained;
  }

  /**
   * One round of the `large_bag` and `small_bag` tests on an empty bag: push
   * every value, then pop as many times as values were pushed. Every pop
   * succeeds, the pairs come out by non-increasing priority, they are exactly
   * the pairs pushed (so the values are exactly the values pushed, in some
   * order), and the bag is empty again, so a further pop answers `None`.
   */
  method PushThenDrain<T>(b: ShuffleBag<T>, values: seq<T>) returns (out: seq<T>, after: Option<T>)
    requires b.Valid() && b.Len() == 0
    modifies b
    ensures b.Valid() && b.Len() == 0 && after == None
    ensures b.pushed == old(b.pushed) + Pushed(values, b.rng, old(b.drawn))
    ensures |b.popped| == |old(b.popped)| + |values| && b.popped[..|old(b.popped)|] == old(b.popped)
    ensures var drained := b.popped[|old(b.popped)|..];
      multiset(drained) == multiset(Pushed(values, b.rng, old(b.drawn))) &&
      NonIncreasing(drained) &&
      out == Values(drained)
    ensures |out| == |values| && multiset(out) == multiset(values)
  {
    ghost var batch := Pushed(values, b.rng, b.drawn);
    PushAll(b, values);
    ghost var popped0 := b.popped;
    out := PopAll(b, |values|);
    ghost var drained := b.popped[|popped0|..];
    ghost var none;
    after, none := b.Pop();
    ValuesOfPermutation(drained, batch);
    assert Values(batch) == values;
  }

  /**
   * The `len` and `is_empty` examples: a new bag is empty; each push of `1`
   * grows it by one.
   */
  method LenAfterPushes(entropy: Stream) returns (len0: nat, len1: nat, len2: nat, empty0: bool, empty1: bool)
    requires InUnitInterval(entropy)
    ensures len0 == 0 && len1 == 1 && len2 == 2
    ensures empty0 && !empty1
  {
    var b := new ShuffleBag<int>.New(entropy);
    len0, empty0 := b.Len(), b.IsEmpty();
    b.Push(1);
    len1, empty1 := b.Len(), b.IsEmpty();
    b.Push(1);
    len2 := b.Len();
  }

  /**
   * The `from` and `pop` examples: `from([1, 2, 3])` holds three values, and
   * three pops all succeed and hand out 1, 2 and 3 in some order. A fourth
   * pop, which the examples do not make, answers `None`.
   */
  method FromThenPopAll(entropy: Stream) returns (len: nat, out: seq<int>, last: Option<int>)
    requires InUnitInterval(entropy)
    ensures len == 3 && |out| == 3 && last == None
    ensures multiset(out) == multiset{1, 2, 3}
  {
    var b := ShuffleBag<int>.From([1, 2, 3], entropy);
    len := b.Len();
    out := PopAll(b, 3);
    ghost var none;
    last, none := b.Pop();
    ValuesOfPermutation(b.popped, b.pushed);
    assert Values(b.pushed) == [1, 2, 3];
  }

  /**
   * Pushes that consume pairwise different draws store pairs with pairwise
   * different priorities, however the heap then arranges them.
   */
  lemma DrawsDistinct<T>(values: seq<T>, s: Stream, stored: seq<ShufflePair<T>>)
    requires forall i: nat, j: nat :: i < j < |values| ==> s(i) != s(j)
    requires multiset(stored) == multiset(Pushed(values, s, 0))
    ensures DistinctPriorities(stored)
  {
    var batch := Pushed(values, s, 0);
    assert forall i :: 0 <= i < |batch| ==> batch[i].priority == s(i);
    DistinctAfterPermutation(batch, stored);
  }

  /**
   * Reproducibility under `with_u64`: two bags seeded alike and fed the same
   * values hand them back in the same order, pop for pop. The model shows
   * this when the draws the pushes consume are pairwise different; which of
   * two equal priorities the heap hands out first is left open.
   */
  method SameSeedSameDrain<T>(seed: u64, seedFromU64: u64 -> Stream, values: seq<T>) returns (outA: seq<T>, outB: seq<T>)
    requires InUnitInterval(seedFromU64(seed))
    requires forall i: nat, j: nat :: i < j < |values| ==> seedFromU64(seed)(i) != seedFromU64(seed)(j)
    ensures outA == outB
    ensures multiset(outA) == multiset(values)
  {
    ghost var drainedA, drainedB;
    outA, drainedA := SeededDrain(seed, seedFromU64, values);
    outB, drainedB := SeededDrain(seed, seedFromU64, values);
    DrawsDistinct(values, seedFromU64(seed), drainedA);
    SortedUnique(drainedA, drainedB);
  }

  /**
   * `with_u64(seed)`, one `push` per value, then one `pop` per value: the pops
   * hand out the pairs built from the first draws of the seeded stream, by
   * non-increasing priority.
   */
  method SeededDrain<T>(seed: u64, seedFromU64: u64 -> Stream, values: seq<T>)
    returns (out: seq<T>, ghost drained: seq<ShufflePair<T>>)
    requires InUnitInterval(seedFromU64(seed))
    ensures multiset(drained) == multiset(Pushed(values, seedFromU64(seed), 0))
    ensures NonIncreasing(drained) && out == Values(drained)
    ensures multiset(out) == multiset(values)
  {
    var b := new ShuffleBag<T>.WithU64(seed, seedFromU64);
    var none;
    out, none := PushThenDrain(b, values);
    assert b.popped[0..] == b.popped;
    drained := b.popped;
  }
}
