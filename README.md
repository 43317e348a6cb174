# shufflebag in Dafny

A model of the `shufflebag` crate (`src/lib.rs`). The crate provides a
`ShuffleBag<T>`: a bag whose values come out in random order. Each `push`
gives the value a fresh random `f64` priority from the bag's own generator
(`StdRng`). It stores the `(value, priority)` pair, a `ShufflePair`, in a
`std::collections::BinaryHeap`. Each `pop` takes out a pair of greatest priority
and returns its value, or `None` when the bag is empty. `ShufflePair`s are
compared and equated by priority alone, never by value.

Files and modules:

- `options.dfy`, module `Options`: Rust's `Option`.
- `shuffle_pair.dfy`, module `ShufflePairs`: `ShufflePair` and its
  `PartialOrd`, `Ord` and `PartialEq` impls. Priorities are a datatype
  `F64 = Num(v: real) | NaN`, so `partial_cmp`'s `None` case is part of the
  model. `Cmp` (`Ord::cmp`, which unwraps `partial_cmp`) requires both
  priorities to be comparable, which is that unwrap's condition.
- `max_order.dfy`, module `MaxOrder`: the part of `BinaryHeap` the bag
  relies on. Pushing inserts a pair. Popping removes one pair that no stored
  pair exceeds under the pair ordering. `IsPopStep` states this over the multiset of
  stored pairs; the storage order and the tie-break are left open. The module
  also proves that a non-empty heap always has a greatest pair, that
  successive pops never increase in priority, that pops depend only on the
  stored multiset when all priorities differ (so that a run of pops has only
  one possible order), and that values are conserved.
- `shuffle_bag.dfy`, module `ShuffleBags`: the class `ShuffleBag` with its
  constructors, `push`, `pop`, `len` and `is_empty`. The generator is a
  `const rng: Stream` (the values `gen::<f64>()` returns, one per call) plus
  `drawn`, the number of values drawn so far, which stands for the
  generator's state. `push` consumes `rng(drawn)`. Two ghost histories,
  `pushed` and `popped`, give the object invariant `Valid()`:
  - the i-th pushed pair carries the i-th draw;
  - the stored pairs are exactly the pushed pairs minus the popped pairs.
  The count invariant `len == pushes - successful pops` follows from these.
- `bag_examples.dfy`, module `BagExamples`: uses of the bag, proved from
  the class contracts alone.
  - From the crate: the `len` and `is_empty` examples; the `from([1, 2, 3])`
    example with its three pops; one round of the tests, which pushes every
    value and then pops once per value. In that round every pop succeeds,
    priorities never increase, and the values are exactly those pushed.
  - Added here, not in the crate: a pop past the end answers `None` (after
    the test round and after the `from` example); and reproducibility under
    `with_u64`, where two bags with the same seed and the same pushes hand
    back the same sequence of values.

The generator's seeding is foreign code, so each constructor takes what it
produces as a parameter:
- `new` and `default` take the entropy-seeded stream.
- `with_seed` and `with_u64` take the seed and the seed-expansion function,
  so equal seeds give equal streams.

## Model

| member | source | states |
|---|---|---|
| `ShufflePairs.PartialCmp` | src/lib.rs:175-179 | `None` exactly when one of the two priorities is NaN; otherwise `Less`/`Equal`/`Greater` exactly as the first priority is below, equal to or above the second |
| `ShufflePairs.Eq` | src/lib.rs:181-186 | two pairs are equal exactly when `partial_cmp` answers `Equal`, i.e. equal non-NaN priorities, whatever the values |
| `ShufflePairs.Cmp` | src/lib.rs:169-173 | defined only when both priorities are comparable (the `unwrap`); agrees with `partial_cmp`, and answers `Equal` exactly when `eq` holds |
| `ShufflePairs.CmpIgnoresValues` | src/lib.rs:169-186 | replacing either pair's value changes neither `partial_cmp` nor `eq` |
| `ShufflePairs.CmpIsTotalPreorder` | src/lib.rs:169-179 | on comparable pairs `cmp` is reflexive, reverses when its arguments are swapped, and is transitive (also strictly) |
| `ShufflePairs.EqNotReflexiveOnNaN` | src/lib.rs:181-186 | a pair with a NaN priority is not `eq` to itself and `partial_cmp` has no answer for it, so `impl Eq` holds only for non-NaN priorities |
| `MaxOrder.GreatestExists` | src/lib.rs:156-158 | every non-empty sequence of comparable pairs has a member no other member exceeds in priority, so `pop` on a non-empty bag always has a pair to return |
| `MaxOrder.PopStepBounds` | src/lib.rs:156-158 | the pair a pop step removes was stored, and no pair left behind is greater than it |
| `MaxOrder.PopStepExtendsRun` | src/lib.rs:1-8 | appending the next popped pair to a run of popped pairs keeps the run in non-increasing priority order, and the popped pair bounds what is left |
| `MaxOrder.PopStepDeterministic` | src/lib.rs:156-158 | two heaps with the same multiset of pairs and pairwise different priorities pop the same pair and keep the same remainder |
| `MaxOrder.DistinctAfterPermutation` | src/lib.rs:156-158 | rearranging pairs whose priorities are pairwise different leaves them pairwise different, so the heap's storage order cannot create a tie |
| `MaxOrder.SameFirst` | src/lib.rs:156-158 | two non-increasing arrangements of the same pairs, with pairwise different priorities, begin with the same pair: the first pop is fixed by the contents |
| `MaxOrder.SortedUnique` | src/lib.rs:156-158 | two non-increasing arrangements of the same pairs, with pairwise different priorities, are equal: the whole order of successive pops is fixed by the contents |
| `MaxOrder.ValuesOfPermutation` | src/lib.rs:156-158 | pairs that form the same multiset carry the same multiset of values: none is lost, duplicated or invented |
| `ShuffleBags.ShuffleBag.New` | src/lib.rs:71-76 | an empty bag (`len == 0`, no pairs, nothing pushed or popped) whose generator is the given entropy stream, nothing drawn yet |
| `ShuffleBags.ShuffleBag.WithSeed` | src/lib.rs:102-107 | an empty bag whose generator is the stream the 32-byte seed expands to, nothing drawn yet |
| `ShuffleBags.ShuffleBag.WithU64` | src/lib.rs:117-122 | an empty bag whose generator is the stream the `u64` seed expands to, nothing drawn yet |
| `ShuffleBags.ShuffleBag.Default` | src/lib.rs:161-165 | a fresh empty bag, the same as `new` |
| `ShuffleBags.ShuffleBag.From` | src/lib.rs:88-96 | a fresh bag holding exactly the pairs made by pushing the values in order onto an empty bag (the k-th value with the k-th draw); `len == N` |
| `ShuffleBags.ShuffleBag.Len` | src/lib.rs:40-42 | the number of stored pairs, which equals the number of pushes minus the number of successful pops |
| `ShuffleBags.ShuffleBag.IsEmpty` | src/lib.rs:56-58 | holds exactly when `len() == 0`, i.e. when no pair is stored |
| `ShuffleBags.ShuffleBag.Push` | src/lib.rs:137-139 | draws exactly one value from the generator and adds exactly one pair, the value with that draw as priority; stored pairs are otherwise unchanged, `len` grows by one |
| `ShuffleBags.ShuffleBag.Pop` | src/lib.rs:156-158 | on an empty bag returns `None` and changes nothing; otherwise returns `Some` of the value of one removed pair that is greatest among all stored pairs, the rest keep their priorities, `len` drops by one, and the generator is untouched |
| `BagExamples.PushAll` | src/lib.rs:229-232 | pushing the values one by one draws one value each and adds exactly the pairs `Pushed(values, ...)` |
| `BagExamples.PopAll` | src/lib.rs:234-237 | `n` pops from a bag of `n` pairs all succeed, leave it empty, return the values of the stored pairs in non-increasing priority order, and remove exactly the stored pairs |
| `BagExamples.PushThenDrain` | src/lib.rs:229-237 | after K pushes onto an empty bag, K pops all succeed in non-increasing priority order and return exactly the pushed values (as a multiset); a further pop returns `None` |
| `BagExamples.LenAfterPushes` | src/lib.rs:30-55 | a new bag has `len() == 0` and `is_empty()`; after one push `len() == 1` and not `is_empty()`; after a second, `len() == 2` |
| `BagExamples.FromThenPopAll` | src/lib.rs:145-154 | `from([1, 2, 3])` has `len() == 3`; three pops succeed and return 1, 2 and 3 in some order; a fourth pop, added here, returns `None` |
| `BagExamples.DrawsDistinct` | src/lib.rs:137-139 | pushes that consume pairwise different draws store pairs with pairwise different priorities, in whatever order they are stored |
| `BagExamples.SeededDrain` | src/lib.rs:117-122 | added scenario: after `with_u64(seed)`, one push per value and one pop per value, the pops hand out the pairs built from the seeded stream's first draws, by non-increasing priority, and return exactly the pushed values |
| `BagExamples.SameSeedSameDrain` | src/lib.rs:117-122 | added scenario: two bags built by `with_u64` from the same seed and given the same pushes hand back the same sequence of values, pop for pop (when the draws consumed are pairwise different) |

## Left out

- Entropy seeding (`StdRng::from_entropy`), `StdRng::from_seed` and `StdRng::seed_from_u64` are foreign code. Their output is a parameter of the constructors: a stream, or the seed-expansion function.
- The `StdRng` algorithm and f64 sampling are not modelled. The draws are an arbitrary stream assumed to stay in [0, 1) and never NaN (`InUnitInterval`).
- f64 is modelled as `Num(real) | NaN`. Infinities, signed zeros and rounding are not modelled; `gen::<f64>()` never produces the first two.
- The statistical tests (`small_bag`, `large_bag`, `normal_bag`) assert near-uniform counts over millions of random draws. That is probabilistic and not modelled. Only one round's structure is kept (`BagExamples.PushThenDrain`).
- `BinaryHeap`'s storage layout and sift order are not part of this model. Only its insert and extract-a-maximum contract is claimed, and which of several equal-priority pairs `pop` returns is left open.
- `len` returns a `nat`: `usize` overflow and running out of memory are not modelled.
- `from` takes a `seq` of any length in place of the const-generic array `[T; N]`.
- `BagExamples.SameSeedSameDrain`: reproducibility is proved only when the draws the pushes consume are pairwise different. With equal draws, the order of pops depends on the heap's tie-break, which is not modelled. It is also proved only for a run of pushes followed by a run of pops, not for pushes and pops interleaved.
- `MaxOrder.PopStepDeterministic`, `MaxOrder.SameFirst`, `MaxOrder.SortedUnique`: require pairwise different priorities, for the same reason.
