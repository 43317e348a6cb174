/**
 * `ShuffleBag<T>`: a max-heap of `(value, priority)` pairs and the generator
 * that hands each pushed value its priority. Pushing draws the generator's
 * next value; popping takes out a pair of greatest priority and returns its
 * value, so values come out in the order of their random priorities.
 *
 * The generator is modelled by the stream of values it produces (`rng`) and
 * by how many of them it has produced so far (`drawn`); the heap by the
 * sequence of pairs it stores, whose order is not part of any contract.
 */
module ShuffleBags {
  import opened Options
  import opened ShufflePairs
  import opened MaxOrder

  newtype u8 = x: int | 0 <= x < 0x100
  newtype u64 = x: int | 0 <= x < 0x1_0000_0000_0000_0000

  /** `<StdRng as SeedableRng>::Seed`: exactly 32 bytes. */
  type Seed = s: seq<u8> | |s| == 32 witness seq(32, _ => 0 as u8)

  /** The values `rng.gen::<f64>()` returns, call after call. */
  type Stream = nat -> F64

  /** `gen::<f64>()` only yields numbers in [0, 1), never NaN. */
  ghost predicate InUnitInterval(s: Stream) {
    forall i: nat :: s(i).Num? && 0.0 <= s(i).v < 1.0
  }

  /** The pairs made by pushing `values` in order, the first drawing `s(from)`. */
  function Pushed<T>(values: seq<T>, s: Stream, from: nat): seq<ShufflePair<T>> {
    seq(|values|, i requires 0 <= i < |values| => ShufflePair(values[i], s(from + i)))
  }

  /** Pushing one more value extends the pushed pairs by one pair, with the next draw. */
  lemma PushedSnoc<T>(values: seq<T>, k: nat, s: Stream, from: nat)
    requires k < |values|
    ensures Pushed(values[..k + 1], s, from) == Pushed(values[..k], s, from) + [ShufflePair(values[k], s(from + k))]
  {
  }

  class ShuffleBag<T> {
    /** The `BinaryHeap`'s storage; only its multiset of pairs is observable. */
    var bag: seq<ShufflePair<T>>
    /** The generator's output stream, fixed when the bag is built. */
    const rng: Stream
    /** How many values the generator has produced: the generator's state. */
    var drawn: nat
    /** Every pair ever pushed, in push order. */
    ghost var pushed: seq<ShufflePair<T>>
    /** Every pair a successful `pop` took out, in pop order. */
    ghost var popped: seq<ShufflePair<T>>

    /**
     * The i-th pushed pair carries the i-th draw, and the stored pairs are
     * exactly the pushed ones minus the popped ones.
     */
    ghost predicate Valid()
      reads this
    {
      InUnitInterval(rng) &&
      |pushed| == drawn &&
      (forall i :: 0 <= i < |pushed| ==> pushed[i].priority == rng(i)) &&
      AllComparable(bag) &&
      multiset(bag) + multiset(popped) == multiset(pushed)
    }

    /** The pairs the bag holds. */
    ghost function Contents(): multiset<ShufflePair<T>>
      reads this
    {
      multiset(bag)
    }

    /** `ShuffleBag::new`: an empty bag; `entropy` is what `StdRng::from_entropy` yields. */
    constructor New(entropy: Stream)
      requires InUnitInterval(entropy)
      ensures Valid() && rng == entropy && drawn == 0
      ensures Contents() == multiset{} && pushed == [] && popped == []
    {
      bag, rng, drawn := [], entropy, 0;
      pushed, popped := [], [];
    }

    /** `ShuffleBag::with_seed`: an empty bag whose generator is `StdRng::from_seed(seed)`. */
    constructor WithSeed(seed: Seed, fromSeed: Seed -> Stream)
      requires InUnitInterval(fromSeed(seed))
      ensures Valid() && rng == fromSeed(seed) && drawn == 0
      ensures Contents() == multiset{} && pushed == [] && popped == []
    {
      bag, rng, drawn := [], fromSeed(seed), 0;
      pushed, popped := [], [];
    }

    /** `ShuffleBag::with_u64`: an empty bag whose generator is `StdRng::seed_from_u64(seed)`. */
    constructor WithU64(seed: u64, seedFromU64: u64 -> Stream)
      requires InUnitInterval(seedFromU64(seed))
      ensures Valid() && rng == seedFromU64(seed) && drawn == 0
      ensures Contents() == multiset{} && pushed == [] && popped == []
    {
      bag, rng, drawn := [], seedFromU64(seed), 0;
      pushed, popped := [], [];
    }

    /** `Default::default`: the same as `new`. */
    static method Default(entropy: Stream) returns (b: ShuffleBag<T>)
      requires InUnitInterval(entropy)
      ensures fresh(b) && b.Valid() && b.rng == entropy && b.drawn == 0
      ensures b.Contents() == multiset{} && b.pushed == [] && b.popped == []
    {
      b := new ShuffleBag.New(entropy);
    }

    /**
     * `ShuffleBag::from`: `new` followed by one `push` per value, in order; the
     * k-th value gets the k-th draw.
     */
    static method From(values: seq<T>, entropy: Stream) returns (b: ShuffleBag<T>)
      requires InUnitInterval(entropy)
      ensures fresh(b) && b.Valid() && b.rng == entropy && b.drawn == |values|
      ensures b.pushed == Pushed(values, entropy, 0) && b.popped == []
      ensures b.Contents() == multiset(Pushed(values, entropy, 0))
      ensures b.Len() == |values|
    {
      b := new ShuffleBag.New(entropy);
      for k := 0 to |values|
        invariant b.Valid() && b.rng == entropy && b.drawn == k
        invariant b.pushed == Pushed(values[..k], entropy, 0) && b.popped == []
      {
        b.Push(values[k]);
        PushedSnoc(values, k, entropy, 0);
      }
      assert values[..|values|] == values;
    }

    /** `len`: the number of pushes so far minus the number of successful pops. */
    function Len(): (n: nat)
      requires Valid()
      reads this
      ensures n == |pushed| - |popped|
      ensures n == |Contents()|
    {
      assert |multiset(bag)| + |multiset(popped)| == |multiset(pushed)|;
      |bag|
    }

    /** `is_empty`: holds exactly when `len` is zero and no pair is stored. */
    predicate IsEmpty()
      requires Valid()
      reads this
      ensures IsEmpty() <==> Len() == 0
      ensures IsEmpty() <==> Contents() == multiset{}
    {
      |bag| == 0
    }

    /**
     * `push`: draws the generator's next value and stores `value` with it as
     * priority; every pair already stored stays as it was.
     */
    method Push(value: T)
      requires Valid()
      modifies this
      ensures Valid() && drawn == old(drawn) + 1
      ensures Contents() == old(Contents()) + multiset{ShufflePair(value, rng(old(drawn)))}
      ensures pushed == old(pushed) + [ShufflePair(value, rng(old(drawn)))] && popped == old(popped)
      ensures Len() == old(Len()) + 1
    {
      var priority := rng(drawn);
      drawn := drawn + 1;
      bag := bag + [ShufflePair(value, priority)];
      pushed := pushed + [ShufflePair(value, priority)];
    }

    /**
     * `pop`: on an empty bag, `None` and nothing changes. Otherwise one pair of
     * greatest priority is taken out (which one, among equal priorities, is
     * left open; `taken` names it) and its value returned; the generator is
     * not used.
     */
    method Pop() returns (r: Option<T>, ghost taken: Option<ShufflePair<T>>)
      requires Valid()
      modifies this
      ensures Valid() && drawn == old(drawn) && pushed == old(pushed)
      ensures old(Len()) == 0 ==> r == None && taken == None && bag == old(bag) && popped == old(popped)
      ensures old(Len()) > 0 ==>
        taken.Some? && r == Some(taken.value.value) &&
        IsPopStep(old(bag), taken.value, bag) &&
        popped == old(popped) + [taken.value] &&
        Len() == old(Len()) - 1
    {
      if |bag| == 0 {
        return None, None;
      }
      GreatestExists(bag);
      var i :| 0 <= i < |bag| && IsGreatest(bag[i], bag);
      var p := bag[i];
      assert bag == bag[..i] + [p] + bag[i + 1..];
      bag := bag[..i] + bag[i + 1..];
      popped := popped + [p];
      r, taken := Some(p.value), Some(p);
    }
  }
}
