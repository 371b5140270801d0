/**
 * ez::enumerate and ez::renumerate: an iterator that moves a base cursor and
 * a size_t index in lock-step and yields the element paired with the index.
 * `EnumIter` is its value; `EnumerateIterator` is the object whose `++`,
 * `--`, `+=` and `-=` update the two fields in place. The three C++
 * specialisations by iterator category are one type here: the operations a
 * weaker category lacks require the stronger category of the base cursor.
 */
module Enumerate {
  import Loops
  import opened Cursors

  /**
   * `value_type`: a reference to the element, identified by the container
   * slot it aliases, paired with the index.
   */
  datatype Pair = Pair(ref: int, index: int)

  /** An enumerate_iterator as a value. `index` is a size_t. */
  datatype EnumIter = EnumIter(iter: Cursor, index: nat) {

    /** `operator*` and `operator->`: the base cursor's element paired with the index. */
    function Deref(): Pair {
      Pair(iter.Slot(), index)
    }

    /** Where prefix `++` leaves the iterator. */
    function Next(): EnumIter {
      EnumIter(iter.Next(), index + 1)
    }

    /** Where prefix `--` leaves the iterator. */
    function Prev(): EnumIter
      requires iter.category.AtLeast(BidirectionalTag) && index > 0
    {
      EnumIter(iter.Prev(), index - 1)
    }

    /** `it + offset` */
    function Plus(offset: int): EnumIter
      requires iter.category == RandomAccessTag && index + offset >= 0
    {
      EnumIter(iter.Plus(offset), index + offset)
    }

    /** `it - offset` */
    function Minus(offset: int): EnumIter
      requires iter.category == RandomAccessTag && index - offset >= 0
    {
      EnumIter(iter.Plus(-offset), index - offset)
    }

    /** `it - other`: taken on the base cursors alone. */
    function Diff(other: EnumIter): int
      requires iter.category == RandomAccessTag && SameType(iter, other.iter)
    {
      iter.Diff(other.iter)
    }

    /** `it[offset]` */
    function At(offset: int): Pair
      requires iter.category == RandomAccessTag && index + offset >= 0
    {
      Pair(iter.Plus(offset).Slot(), index + offset)
    }

    /** `==` and `!=` compare the base cursors and ignore the index. */
    predicate Eq(other: EnumIter) {
      iter.Eq(other.iter)
    }

    predicate NotEq(other: EnumIter) {
      !iter.Eq(other.iter)
    }

    /** `<`, `>`, `<=`, `>=` likewise compare the base cursors only. */
    predicate Less(other: EnumIter)
      requires iter.category == RandomAccessTag && SameType(iter, other.iter)
    {
      iter.Less(other.iter)
    }

    predicate Greater(other: EnumIter)
      requires iter.category == RandomAccessTag && SameType(iter, other.iter)
    {
      other.iter.Less(iter)
    }

    predicate LessEq(other: EnumIter)
      requires iter.category == RandomAccessTag && SameType(iter, other.iter)
    {
      !other.iter.Less(iter)
    }

    predicate GreaterEq(other: EnumIter)
      requires iter.category == RandomAccessTag && SameType(iter, other.iter)
    {
      !iter.Less(other.iter)
    }
  }

  /**
   * The free `operator+(offset, it)`: a copy of `it` moved by `offset`.
   */
  function OffsetPlus(offset: int, it: EnumIter): (r: EnumIter)
    requires it.iter.category == RandomAccessTag && it.index + offset >= 0
    ensures r == it.Plus(offset)
    ensures r.Diff(it) == offset && r.index == it.index + offset
  {
    var copy := it;
    copy.Plus(offset)
  }

  /**
   * The free `operator-(offset, it)`: a copy of `it` moved back by `offset`,
   * so `n - it` means `it - n`.
   */
  function OffsetMinus(offset: int, it: EnumIter): (r: EnumIter)
    requires it.iter.category == RandomAccessTag && it.index - offset >= 0
    ensures r == it.Minus(offset)
    ensures r.Diff(it) == -offset && r.index == it.index - offset
  {
    var copy := it;
    copy.Minus(offset)
  }

  /** `++` then `--` restores both the base cursor and the index, and so does `--` then `++`. */
  lemma StepsAreInverse(it: EnumIter)
    requires it.iter.category.AtLeast(BidirectionalTag)
    ensures it.Next().Prev() == it
    ensures it.index > 0 ==> it.Prev().Next() == it
    ensures it.Next().index == it.index + 1
  {
  }

  /**
   * The random-access laws: `+ n` and `- n` shift the base and the index by
   * the same `n` and undo each other; `(it + n) - it == n`; `it[k]` is
   * `*(it + k)`; the comparisons ignore the index.
   */
  lemma RandomAccessLaws(it: EnumIter, n: int)
    requires it.iter.category == RandomAccessTag && it.index + n >= 0
    ensures it.Plus(n).Diff(it) == n
    ensures it.Plus(n).index == it.index + n
    ensures it.Plus(n).Minus(n) == it
    ensures it.At(n) == it.Plus(n).Deref()
    ensures it.Next() == it.Plus(1)
  {
  }

  /** Comparisons look only at the base cursors: two iterators that differ only in the index are equal. */
  lemma ComparisonsIgnoreIndex(a: EnumIter, b: EnumIter, i: nat, j: nat)
    requires a.iter.category == RandomAccessTag && SameType(a.iter, b.iter)
    ensures a.Eq(b) == EnumIter(a.iter, i).Eq(EnumIter(b.iter, j))
    ensures a.Less(b) == EnumIter(a.iter, i).Less(EnumIter(b.iter, j))
    ensures a.Less(b) <==> b.Diff(a) > 0
    ensures a.Greater(b) <==> b.Less(a)
    ensures a.LessEq(b) <==> (a.Less(b) || a.Eq(b))
    ensures a.GreaterEq(b) <==> !a.Less(b)
    ensures a.NotEq(b) <==> !a.Eq(b)
  {
  }

  /** An enumerate_iterator object: `iter` and `index` are updated in place. */
  class EnumerateIterator {
    var iter: Cursor
    var index: nat

    constructor (iter: Cursor, index: nat)
      ensures Value() == EnumIter(iter, index)
    {
      this.iter := iter;
      this.index := index;
    }

    /** A copy of the iterator. */
    function Value(): EnumIter
      reads this
    {
      EnumIter(iter, index)
    }

    /** Prefix `++`: `++iter; ++index;` */
    method Increment()
      modifies this
      ensures Value() == old(Value()).Next()
    {
      iter := iter.Next();
      index := index + 1;
    }

    /** Postfix `++`: returns the iterator as it was and moves the receiver. */
    method PostIncrement() returns (copy: EnumIter)
      modifies this
      ensures copy == old(Value()) && Value() == copy.Next()
    {
      copy := Value();
      Increment();
    }

    /** Prefix `--`: `--iter; --index;` */
    method Decrement()
      requires iter.category.AtLeast(BidirectionalTag) && index > 0
      modifies this
      ensures Value() == old(Value()).Prev()
    {
      iter := iter.Prev();
      index := index - 1;
    }

    /** Postfix `--`: returns the iterator as it was and moves the receiver. */
    method PostDecrement() returns (copy: EnumIter)
      requires iter.category.AtLeast(BidirectionalTag) && index > 0
      modifies this
      ensures copy == old(Value()) && Value() == copy.Prev()
    {
      copy := Value();
      Decrement();
    }

    /** `it += offset`: the index and the base move by the same `offset`. */
    method AddAssign(offset: int)
      requires iter.category == RandomAccessTag && index + offset >= 0
      modifies this
      ensures Value() == old(Value()).Plus(offset)
    {
      index := index + offset;
      iter := iter.Plus(offset);
    }

    /** `it -= offset` */
    method SubAssign(offset: int)
      requires iter.category == RandomAccessTag && index - offset >= 0
      modifies this
      ensures Value() == old(Value()).Minus(offset)
    {
      index := index - offset;
      iter := iter.Plus(-offset);
    }
  }

  /** enumerate_range: begin is `(c.begin(), 0)`, end is `(c.end(), c.size())`. */
  datatype EnumerateRange<T> = EnumerateRange(container: Container<T>) {

    function Begin(): EnumIter {
      EnumIter(container.Begin(), 0)
    }

    function End(): EnumIter {
      EnumIter(container.End(), container.Size())
    }
  }

  /**
   * renumerate_range: begin is `(rev(c.end()), 0)`, end is
   * `(rev(c.begin()), c.size())`; reverse cursors need a bidirectional base.
   */
  datatype RenumerateRange<T> = RenumerateRange(container: Container<T>) {

    predicate Valid() {
      container.category.AtLeast(BidirectionalTag)
    }

    function Begin(): EnumIter
      requires Valid()
    {
      EnumIter(MakeReverse(container.End()), 0)
    }

    function End(): EnumIter
      requires Valid()
    {
      EnumIter(MakeReverse(container.Begin()), container.Size())
    }
  }

  /** `ez::enumerate(c)` */
  function Enumerate<T>(c: Container<T>): EnumerateRange<T> {
    EnumerateRange(c)
  }

  /** `ez::renumerate(c)` */
  function Renumerate<T>(c: Container<T>): (r: RenumerateRange<T>)
    requires c.category.AtLeast(BidirectionalTag)
    ensures r.Valid()
  {
    RenumerateRange(c)
  }

  /** The operations a range-based for loop uses. */
  function Step(it: EnumIter): EnumIter { it.Next() }
  predicate Same(a: EnumIter, b: EnumIter) { a.Eq(b) }
  function Item(it: EnumIter): Pair { it.Deref() }

  /** `k` prefix increments move the base cursor `k` steps and add `k` to the index. */
  lemma {:induction false} IncrementsAdvanceBoth(it: EnumIter, k: nat)
    ensures Loops.Iterate(Step, it, k) == EnumIter(it.iter.Walked(k), it.index + k)
    decreases k
  {
    if k > 0 {
      IncrementsAdvanceBoth(it, k - 1);
    }
  }

  /**
   * A loop over `enumerate(c)` runs `c.size()` times, and its `i`-th pair
   * refers to slot `i` of the container with index `i`; so an empty
   * container gives an empty loop.
   */
  lemma EnumerateTraversal<T>(c: Container<T>)
    ensures Loops.StopsAfter(Step, Same, Enumerate(c).Begin(), Enumerate(c).End(), c.Size())
    ensures forall i :: 0 <= i < c.Size() ==>
      Loops.Visit(Step, Item, Enumerate(c).Begin(), c.Size())[i] == Pair(i, i)
  {
    var b, e, n := Enumerate(c).Begin(), Enumerate(c).End(), c.Size();
    forall k: nat | k <= n
      ensures Loops.Iterate(Step, b, k) == EnumIter(Cursor(c.category, false, k), k)
    {
      IncrementsAdvanceBoth(b, k);
    }
  }

  /**
   * A loop over `renumerate(c)`, as written, runs `c.size()` times and walks
   * the elements back to front, but the index it pairs with the `i`-th
   * element counts up from 0: the last element comes with index 0.
   */
  lemma RenumerateTraversalAsWritten<T>(c: Container<T>)
    requires c.category.AtLeast(BidirectionalTag)
    ensures Loops.StopsAfter(Step, Same, Renumerate(c).Begin(), Renumerate(c).End(), c.Size())
    ensures forall i :: 0 <= i < c.Size() ==>
      Loops.Visit(Step, Item, Renumerate(c).Begin(), c.Size())[i] == Pair(c.Size() - 1 - i, i)
  {
    var b, e, n := Renumerate(c).Begin(), Renumerate(c).End(), c.Size();
    forall k: nat | k <= n
      ensures Loops.Iterate(Step, b, k) == EnumIter(Cursor(c.category, true, n - k), k)
    {
      IncrementsAdvanceBoth(b, k);
    }
  }

  /** Concretely: renumerating three elements pairs the last one with index 0, not 2. */
  lemma RenumerateIndexMismatch<T>(x: T, y: T, z: T)
    ensures Loops.Visit(Step, Item, Renumerate(Container(BidirectionalTag, [x, y, z])).Begin(), 3)[0] == Pair(2, 0)
  {
    RenumerateTraversalAsWritten(Container(BidirectionalTag, [x, y, z]));
  }

  /**
   * Writing through the pair refers to the container: the value of
   * `(*it).value` is the element at the slot, and assigning to it replaces
   * that element and no other.
   */
  function Store<T>(c: seq<T>, p: Pair, v: T): (r: seq<T>)
    requires 0 <= p.ref < |c|
    ensures |r| == |c| && r[p.ref] == v
    ensures forall j :: 0 <= j < |c| && j != p.ref ==> r[j] == c[j]
  {
    c[p.ref := v]
  }

  /** The container after assigning `v` through each of `pairs`, in order. */
  function StoreAll<T>(c: seq<T>, pairs: seq<Pair>, v: T): (r: seq<T>)
    requires forall i :: 0 <= i < |pairs| ==> 0 <= pairs[i].ref < |c|
    ensures |r| == |c|
    decreases |pairs|
  {
    if pairs == [] then c else StoreAll(Store(c, pairs[0], v), pairs[1..], v)
  }

  /** A slot ends up holding `v` exactly when some pair refers to it. */
  lemma {:induction false} StoreAllAt<T>(c: seq<T>, pairs: seq<Pair>, v: T, j: int)
    requires forall i :: 0 <= i < |pairs| ==> 0 <= pairs[i].ref < |c|
    requires 0 <= j < |c|
    ensures StoreAll(c, pairs, v)[j] == if exists i :: 0 <= i < |pairs| && pairs[i].ref == j then v else c[j]
    decreases |pairs|
  {
    if pairs != [] {
      var c' := Store(c, pairs[0], v);
      StoreAllAt(c', pairs[1..], v, j);
      if exists i :: 0 <= i < |pairs| && pairs[i].ref == j {
        var i :| 0 <= i < |pairs| && pairs[i].ref == j;
        if i > 0 {
          assert pairs[1..][i - 1].ref == j;
        }
      } else {
        forall i | 0 <= i < |pairs| - 1 ensures pairs[1..][i].ref != j {
          assert pairs[1..][i] == pairs[i + 1];
        }
      }
    }
  }

  /**
   * Assigning `v` through every pair of `enumerate(c)` sets every element of
   * the container to `v`: the pairs alias the container's elements.
   */
  lemma AssignThroughEnumerate<T>(c: Container<T>, v: T)
    ensures var pairs := Loops.Visit(Step, Item, Enumerate(c).Begin(), c.Size());
      (forall i :: 0 <= i < |pairs| ==> 0 <= pairs[i].ref < c.Size()) &&
      StoreAll(c.elems, pairs, v) == seq(c.Size(), _ => v)
  {
    var pairs := Loops.Visit(Step, Item, Enumerate(c).Begin(), c.Size());
    EnumerateTraversal(c);
    forall j | 0 <= j < c.Size()
      ensures StoreAll(c.elems, pairs, v)[j] == v
    {
      StoreAllAt(c.elems, pairs, v, j);
      assert pairs[j].ref == j;
    }
  }

  /**
   * The reverse enumeration the library's tests expect
   * (test/enumerations.cpp:44-55): the index starts at `size - 1` and counts
   * down with the reverse cursor, so every element is paired with its own
   * position. The index is signed, and is -1 at the end.
   */
  datatype CountdownIter = CountdownIter(iter: Cursor, index: int) {

    function Deref(): Pair {
      Pair(iter.Slot(), index)
    }

    function Next(): CountdownIter {
      CountdownIter(iter.Next(), index - 1)
    }

    predicate Eq(other: CountdownIter) {
      iter.Eq(other.iter)
    }
  }

  /** The corrected renumerate range: begin is `(rev(c.end()), size - 1)`, end is `(rev(c.begin()), -1)`. */
  datatype CountdownRange<T> = CountdownRange(container: Container<T>) {

    predicate Valid() {
      container.category.AtLeast(BidirectionalTag)
    }

    function Begin(): CountdownIter
      requires Valid()
    {
      CountdownIter(MakeReverse(container.End()), container.Size() - 1)
    }

    function End(): CountdownIter
      requires Valid()
    {
      CountdownIter(MakeReverse(container.Begin()), -1)
    }
  }

  function CountdownStep(it: CountdownIter): CountdownIter { it.Next() }
  predicate CountdownSame(a: CountdownIter, b: CountdownIter) { a.Eq(b) }
  function CountdownItem(it: CountdownIter): Pair { it.Deref() }

  /**
   * The corrected renumerate runs `c.size()` times, walks the elements back
   * to front and pairs each with its own position: the `i`-th pair is
   * `(slot n-1-i, index n-1-i)`, so the indices are `n-1, ..., 0`.
   */
  lemma RenumerateTraversal<T>(c: Container<T>)
    requires c.category.AtLeast(BidirectionalTag)
    ensures var r := CountdownRange(c);
      && Loops.StopsAfter(CountdownStep, CountdownSame, r.Begin(), r.End(), c.Size())
      && forall i :: 0 <= i < c.Size() ==>
        Loops.Visit(CountdownStep, CountdownItem, r.Begin(), c.Size())[i] == Pair(c.Size() - 1 - i, c.Size() - 1 - i)
  {
    var r := CountdownRange(c);
    var b, n := r.Begin(), c.Size();
    forall k: nat | k <= n
      ensures Loops.Iterate(CountdownStep, b, k) == CountdownIter(Cursor(c.category, true, n - k), n - 1 - k)
    {
      CountdownClosedForm(b, k);
    }
  }

  lemma {:induction false} CountdownClosedForm(it: CountdownIter, k: nat)
    ensures Loops.Iterate(CountdownStep, it, k) == CountdownIter(it.iter.Walked(k), it.index - k)
    decreases k
  {
    if k > 0 {
      CountdownClosedForm(it, k - 1);
    }
  }
}
