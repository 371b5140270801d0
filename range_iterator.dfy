/**
 * ez::intern::range_iterator<T>: a random-access cursor whose only state is
 * the integer it stands on. `RangeIter` is its value, which the const
 * operators build; `RangeIterator` is the object whose `++`, `--`, `+=` and
 * `-=` update that integer in place.
 */
module RangeIterators {
  import Loops

  /** A range_iterator as a value: a copy of one, as the const operators return. */
  datatype RangeIter = RangeIter(index: int) {

    /** `operator*` and `operator->`: the stored integer itself. */
    function Deref(): int { index }

    /** Where prefix `++` leaves the cursor. */
    function Next(): RangeIter { RangeIter(index + 1) }

    /** Where prefix `--` leaves the cursor. */
    function Prev(): RangeIter { RangeIter(index - 1) }

    /** `it + val` */
    function Plus(val: int): RangeIter { RangeIter(index + val) }

    /** `it - val` */
    function Minus(val: int): RangeIter { RangeIter(index - val) }

    /** `it - other`: the distance from `other` to `it`. */
    function Diff(other: RangeIter): int { index - other.index }

    /** `it[offset]` */
    function At(offset: int): int { index + offset }

    predicate Eq(other: RangeIter) { index == other.index }
    predicate NotEq(other: RangeIter) { index != other.index }
    predicate Less(other: RangeIter) { index < other.index }
    predicate Greater(other: RangeIter) { index > other.index }
    predicate LessEq(other: RangeIter) { index <= other.index }
    predicate GreaterEq(other: RangeIter) { index >= other.index }
  }

  /**
   * The free `operator+(T val, const range_iterator<T>&)` as it is evidently
   * meant, `*it + val`. As written it applies the non-const `operator*` to a
   * const reference, so no instantiation of it compiles.
   */
  function PlusLeft(val: int, it: RangeIter): (r: RangeIter)
    ensures r == it.Plus(val)
    ensures r.Diff(it) == val
  {
    RangeIter(it.Deref() + val)
  }

  /** `++` and `--` undo each other, and are `+ 1` and `- 1`. */
  lemma StepsAreInverse(it: RangeIter)
    ensures it.Next().Prev() == it && it.Prev().Next() == it
    ensures it.Next() == it.Plus(1) && it.Prev() == it.Minus(1)
  {
  }

  /**
   * The random-access laws: `(it + n) - it == n`, `it - n` undoes `it + n`,
   * and `it[n]` is what `*(it + n)` would give; `it` itself is a value and
   * is not changed by any of them.
   */
  lemma OffsetLaws(it: RangeIter, n: int)
    ensures it.Plus(n).Diff(it) == n && it.Minus(n).Diff(it) == -n
    ensures it.Plus(n).Minus(n) == it && it.Minus(n).Plus(n) == it
    ensures it.Minus(n) == it.Plus(-n)
    ensures it.At(n) == it.Plus(n).Deref()
  {
  }

  /**
   * The six comparisons agree with the sign of the difference, so they are
   * one total order and `==` is equality of the cursors.
   */
  lemma ComparisonsAgree(a: RangeIter, b: RangeIter)
    ensures a.Eq(b) <==> a == b
    ensures a.Eq(b) <==> a.Diff(b) == 0
    ensures a.NotEq(b) <==> !a.Eq(b)
    ensures a.Less(b) <==> a.Diff(b) < 0
    ensures a.Greater(b) <==> b.Less(a)
    ensures a.LessEq(b) <==> !b.Less(a)
    ensures a.GreaterEq(b) <==> !a.Less(b)
  {
  }

  /** Prefix `++` and comparison, as the functions a loop over range_iterators uses. */
  function Step(it: RangeIter): RangeIter { it.Next() }
  predicate Same(a: RangeIter, b: RangeIter) { a.Eq(b) }

  /** `k` prefix increments move the cursor as `+= k` does. */
  lemma {:induction false} IncrementsAreOffset(it: RangeIter, k: nat)
    ensures Loops.Iterate(Step, it, k) == it.Plus(k)
    decreases k
  {
    if k > 0 {
      IncrementsAreOffset(it, k - 1);
    }
  }

  /** A range_iterator object: the field `index` is updated in place. */
  class RangeIterator {
    var index: int

    constructor (index: int)
      ensures Value() == RangeIter(index)
    {
      this.index := index;
    }

    /** A copy of the cursor. */
    function Value(): RangeIter
      reads this
    {
      RangeIter(index)
    }

    /** Prefix `++`. */
    method Increment()
      modifies this
      ensures Value() == old(Value()).Next()
    {
      index := index + 1;
    }

    /** Postfix `++`: returns the cursor as it was and moves the receiver. */
    method PostIncrement() returns (copy: RangeIter)
      modifies this
      ensures copy == old(Value()) && Value() == copy.Next()
    {
      copy := Value();
      Increment();
    }

    /** Prefix `--`. */
    method Decrement()
      modifies this
      ensures Value() == old(Value()).Prev()
    {
      index := index - 1;
    }

    /** Postfix `--`: returns the cursor as it was and moves the receiver. */
    method PostDecrement() returns (copy: RangeIter)
      modifies this
      ensures copy == old(Value()) && Value() == copy.Prev()
    {
      copy := Value();
      Decrement();
    }

    /** `it += val`: the cursor becomes the old `it + val`. */
    method AddAssign(val: int)
      modifies this
      ensures Value() == old(Value()).Plus(val)
    {
      index := index + val;
    }

    /** `it -= val`: the cursor becomes the old `it - val`. */
    method SubAssign(val: int)
      modifies this
      ensures Value() == old(Value()).Minus(val)
    {
      index := index - val;
    }
  }
}
