/**
 * `ShufflePair<T>(T, f64)`: a stored value together with the random priority
 * it was given when it was pushed, and the ordering the heap uses on it.
 *
 * The ordering looks at the priority only. `partial_cmp` is f64's partial
 * comparison, `cmp` unwraps it (so it is only defined on comparable, i.e.
 * non-NaN, priorities) and `eq` is f64's `==` on the priorities.
 */
module ShufflePairs {
  import opened Options

  /**
   * An f64 as the comparisons see it: `Num(v)` stands for any value that is
   * not NaN, ordered as the real number `v`; `NaN` is the one value that
   * compares with nothing.
   */
  datatype F64 = Num(v: real) | NaN

  /** `std::cmp::Ordering`. */
  datatype Ordering = Less | Equal | Greater {
    function Reverse(): Ordering {
      match this
      case Less => Greater
      case Equal => Equal
      case Greater => Less
    }
  }

  /** `f64::partial_cmp`: no answer when either side is NaN. */
  function FloatPartialCmp(a: F64, b: F64): Option<Ordering> {
    if a.NaN? || b.NaN? then None
    else if a.v < b.v then Some(Less)
    else if a.v == b.v then Some(Equal)
    else Some(Greater)
  }

  /** f64's `==`: NaN equals nothing, itself included. */
  predicate FloatEq(a: F64, b: F64) {
    a.Num? && b.Num? && a.v == b.v
  }

  datatype ShufflePair<T> = ShufflePair(value: T, priority: F64)

  /** A pair whose priority `cmp` can order without panicking. */
  predicate Comparable<T>(p: ShufflePair<T>) {
    p.priority.Num?
  }

  /**
   * `PartialOrd::partial_cmp` for pairs: undefined exactly when one of the two
   * priorities is NaN, and otherwise the order of the two priorities.
   */
  function PartialCmp<T>(a: ShufflePair<T>, b: ShufflePair<T>): (r: Option<Ordering>)
    ensures r.None? <==> !Comparable(a) || !Comparable(b)
    ensures r == Some(Less) <==> Comparable(a) && Comparable(b) && a.priority.v < b.priority.v
    ensures r == Some(Equal) <==> Comparable(a) && Comparable(b) && a.priority.v == b.priority.v
    ensures r == Some(Greater) <==> Comparable(a) && Comparable(b) && a.priority.v > b.priority.v
  {
    FloatPartialCmp(a.priority, b.priority)
  }

  /**
   * `PartialEq::eq` for pairs: equal priorities, whatever the values; it agrees
   * with `partial_cmp` answering `Equal`.
   */
  predicate Eq<T>(a: ShufflePair<T>, b: ShufflePair<T>)
    ensures Eq(a, b) <==> PartialCmp(a, b) == Some(Equal)
  {
    FloatEq(a.priority, b.priority)
  }

  /**
   * `Ord::cmp` for pairs: `partial_cmp(..).unwrap()`, so callers must pass
   * comparable pairs. It agrees with `partial_cmp`, and with `eq` on `Equal`,
   * as Rust's `Ord` contract asks.
   */
  function Cmp<T>(a: ShufflePair<T>, b: ShufflePair<T>): (r: Ordering)
    requires Comparable(a) && Comparable(b)
    ensures PartialCmp(a, b) == Some(r)
    ensures r == Equal <==> Eq(a, b)
  {
    PartialCmp(a, b).value
  }

  /** Ordering and equality never look at the stored values. */
  lemma CmpIgnoresValues<T>(a: ShufflePair<T>, b: ShufflePair<T>, x: T, y: T)
    ensures PartialCmp(a.(value := x), b.(value := y)) == PartialCmp(a, b)
    ensures Eq(a.(value := x), b.(value := y)) == Eq(a, b)
  {
  }

  /**
   * On comparable pairs `cmp` is a total preorder: reflexive, antisymmetric
   * (swapping the arguments reverses the answer) and transitive.
   */
  lemma CmpIsTotalPreorder<T>(a: ShufflePair<T>, b: ShufflePair<T>, c: ShufflePair<T>)
    requires Comparable(a) && Comparable(b) && Comparable(c)
    ensures Cmp(a, a) == Equal
    ensures Cmp(b, a) == Cmp(a, b).Reverse()
    ensures Cmp(a, b) != Greater && Cmp(b, c) != Greater ==> Cmp(a, c) != Greater
    ensures Cmp(a, b) == Less && Cmp(b, c) != Greater ==> Cmp(a, c) == Less
  {
  }

  /**
   * The `impl Eq` promises a reflexive `eq`, which a NaN priority breaks:
   * the promise rests on priorities never being NaN.
   */
  lemma EqNotReflexiveOnNaN<T>(a: ShufflePair<T>)
    requires !Comparable(a)
    ensures !Eq(a, a) && PartialCmp(a, a).None?
  {
  }
}
