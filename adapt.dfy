/**
 * The adaptors of ez/iterator/adapt.hpp. offset_adaptor turns each `++` and
 * `--` of a range_iterator into a step of `Inc`. functor_adaptor and
 * lambda_adaptor apply a function on dereference and take every movement,
 * comparison and difference from the cursor they wrap. `adapt` builds either
 * an adapted cursor or a simple_range of two adapted cursors.
 */
module Adapt {
  import Loops
  import opened Wrappers
  import opened Cursors
  import opened RangeIterators

  /** simple_range: a begin and an end cursor to iterate between. */
  datatype SimpleRange<I> = SimpleRange(first: I, last: I) {
    function Begin(): I { first }
    function End(): I { last }
  }

  /**
   * An offset_adaptor over a range_iterator, as a value: the inherited
   * range_iterator and the step `inc` (the template argument `Inc`).
   * range_iterator is random access, which the adaptor's static_assert demands.
   */
  datatype OffsetIter = OffsetIter(base: RangeIter, inc: int) {

    /** Where prefix `++` leaves the cursor: `*this += Inc`. */
    function Next(): OffsetIter {
      this.(base := base.Plus(inc))
    }

    /** Where prefix `--` leaves the cursor: `*this -= Inc`. */
    function Prev(): OffsetIter {
      this.(base := base.Minus(inc))
    }

    /** `*it`, `==`, `it + n`, `it - other`: inherited from range_iterator, not scaled by `Inc`. */
    function Deref(): int { base.Deref() }
    predicate Eq(other: OffsetIter) { base.Eq(other.base) }
    function Plus(n: int): RangeIter { base.Plus(n) }
    function Diff(other: OffsetIter): int { base.Diff(other.base) }
  }

  function OffsetStep(it: OffsetIter): OffsetIter { it.Next() }
  predicate OffsetSame(a: OffsetIter, b: OffsetIter) { a.Eq(b) }
  function OffsetItem(it: OffsetIter): int { it.Deref() }

  /**
   * Prefix `++` moves the underlying cursor by exactly `+Inc` and `--` by
   * `-Inc`, so one undoes the other; `+ n` is not scaled.
   */
  lemma OffsetStepLaws(it: OffsetIter, n: int)
    ensures it.Next().Diff(it) == it.inc && it.Prev().Diff(it) == -it.inc
    ensures it.Next().Prev() == it && it.Prev().Next() == it
    ensures it.Plus(n).Diff(it.base) == n
  {
  }

  /** `k` prefix increments move the position by `k * Inc`. */
  lemma {:induction false} OffsetIncrements(it: OffsetIter, k: nat)
    ensures Loops.Iterate(OffsetStep, it, k) == it.(base := RangeIter(it.base.index + k * it.inc))
    decreases k
  {
    if k > 0 {
      OffsetIncrements(it, k - 1);
      assert (k - 1) * it.inc + it.inc == k * it.inc;
    }
  }

  /** An offset_adaptor object: the inherited `index` is updated in place; `Inc` is fixed. */
  class OffsetAdaptor {
    var index: int
    const inc: int

    /** The inherited range_iterator(T) constructor, with the step fixed by the type. */
    constructor (index: int, inc: int)
      ensures Value() == OffsetIter(RangeIter(index), inc)
    {
      this.index := index;
      this.inc := inc;
    }

    /** A copy of the cursor. */
    function Value(): OffsetIter
      reads this
    {
      OffsetIter(RangeIter(index), inc)
    }

    /** Prefix `++` */
    method Increment()
      modifies this
      ensures Value() == old(Value()).Next()
    {
      index := index + inc;
    }

    /** Prefix `--` */
    method Decrement()
      modifies this
      ensures Value() == old(Value()).Prev()
    {
      index := index - inc;
    }

    /**
     * Postfix `++` as written: a copy is stepped and returned. The method
     * modifies nothing, so the receiver stays where it was.
     */
    method PostIncrementAsWritten() returns (r: OffsetIter)
      ensures r == Value().Next()
    {
      var copy := Value();
      r := copy.Next();
    }

    /** Postfix `--` as written: a copy is stepped back and returned; the receiver stays. */
    method PostDecrementAsWritten() returns (r: OffsetIter)
      ensures r == Value().Prev()
    {
      var copy := Value();
      r := copy.Prev();
    }

    /** Postfix `++` as an iterator's postfix `++` must behave: returns the old cursor, moves the receiver. */
    method PostIncrement() returns (copy: OffsetIter)
      modifies this
      ensures copy == old(Value()) && Value() == copy.Next()
    {
      copy := Value();
      Increment();
    }

    /** Postfix `--`: returns the old cursor, moves the receiver back. */
    method PostDecrement() returns (copy: OffsetIter)
      modifies this
      ensures copy == old(Value()) && Value() == copy.Prev()
    {
      copy := Value();
      Decrement();
    }

    /** The inherited `+=`: moves by `val`, not by `val * Inc`. */
    method AddAssign(val: int)
      modifies this
      ensures Value() == old(Value()).(base := old(Value()).base.Plus(val))
    {
      index := index + val;
    }

    /** The inherited `-=`: moves back by `val`, not by `val * Inc`. */
    method SubAssign(val: int)
      modifies this
      ensures Value() == old(Value()).(base := old(Value()).base.Minus(val))
    {
      index := index - val;
    }
  }

  /**
   * `it++` as written, on an adaptor at 0 stepping by 2: the value returned
   * is at 2 and `it` stays at 0, the other way round from a postfix `++`.
   */
  method PostIncrementAsWrittenExample() returns (returned: int, after: int)
    ensures returned == 2 && after == 0
  {
    var it := new OffsetAdaptor(0, 2);
    var r := it.PostIncrementAsWritten();
    returned, after := r.Deref(), it.Value().Deref();
  }

  /** The corrected `it++` on the same adaptor returns 0 and leaves `it` at 2. */
  method PostIncrementExample() returns (returned: int, after: int)
    ensures returned == 0 && after == 2
  {
    var it := new OffsetAdaptor(0, 2);
    var r := it.PostIncrement();
    returned, after := r.Deref(), it.Value().Deref();
  }

  /**
   * A functor_adaptor: the cursor it wraps and `Functor{}`, a stateless
   * function applied to the element on every dereference.
   */
  datatype FunctorAdaptor<!T, R> = FunctorAdaptor(base: Cursor, functor: T -> R) {

    /** `operator*`: `Functor{}(*base)`. */
    function Deref(c: seq<T>): R
      requires 0 <= base.Slot() < |c|
    {
      functor(c[base.Slot()])
    }

    /** Movement, comparison and difference are the wrapped cursor's. */
    function Next(): FunctorAdaptor<T, R> { this.(base := base.Next()) }

    function Prev(): FunctorAdaptor<T, R>
      requires base.category.AtLeast(BidirectionalTag)
    {
      this.(base := base.Prev())
    }

    /**
     * `a + n`: functor_adaptor declares no `operator+`, so this is the wrapped
     * cursor's, which returns a plain cursor without the functor.
     */
    function Plus(n: int): Cursor
      requires base.category == RandomAccessTag
    {
      base.Plus(n)
    }

    predicate Eq(other: FunctorAdaptor<T, R>) { base.Eq(other.base) }

    function Diff(other: FunctorAdaptor<T, R>): int
      requires base.category == RandomAccessTag && SameType(base, other.base)
    {
      base.Diff(other.base)
    }
  }

  /**
   * A lambda_adaptor: the cursor it wraps and a pointer to the function,
   * null in the end cursor that `adapt` builds. With a function returning a
   * value, `*` and `->` return that value; with one returning a reference
   * `R` is the referenced object's address, `*` returns the reference and
   * `->` its address, which is the same address.
   */
  datatype LambdaAdaptor<!T, R> = LambdaAdaptor(base: Cursor, func: Option<T -> R>) {

    /** `operator*`: `(*func)(*base)`; the function pointer must not be null. */
    function Deref(c: seq<T>): R
      requires func.Some? && 0 <= base.Slot() < |c|
    {
      func.value(c[base.Slot()])
    }

    /**
     * `operator->`: the value itself, or `&(*func)(*base)`, the address of the
     * returned reference, which in this encoding is `R` itself.
     */
    function Arrow(c: seq<T>): (r: R)
      requires func.Some? && 0 <= base.Slot() < |c|
      ensures r == Deref(c)
    {
      var reference := func.value(c[base.Slot()]);
      reference
    }

    /** Movement, comparison and difference are the wrapped cursor's. */
    function Next(): LambdaAdaptor<T, R> { this.(base := base.Next()) }

    function Prev(): LambdaAdaptor<T, R>
      requires base.category.AtLeast(BidirectionalTag)
    {
      this.(base := base.Prev())
    }

    /** `a + n`: the wrapped cursor's, a plain cursor without the function. */
    function Plus(n: int): Cursor
      requires base.category == RandomAccessTag
    {
      base.Plus(n)
    }

    predicate Eq(other: LambdaAdaptor<T, R>) { base.Eq(other.base) }

    function Diff(other: LambdaAdaptor<T, R>): int
      requires base.category == RandomAccessTag && SameType(base, other.base)
    {
      base.Diff(other.base)
    }
  }

  /** `adapt<Functor>(it)` on an iterator: the iterator wrapped. */
  function AdaptIterator<T, R>(it: Cursor, functor: T -> R): FunctorAdaptor<T, R> {
    FunctorAdaptor(it, functor)
  }

  /** `adapt<Functor>(obj)` on a container: `obj.begin()` and `obj.end()`, each wrapped. */
  function AdaptContainer<T, R>(obj: Container<T>, functor: T -> R): SimpleRange<FunctorAdaptor<T, R>> {
    SimpleRange(FunctorAdaptor(obj.Begin(), functor), FunctorAdaptor(obj.End(), functor))
  }

  /** `adapt(it, func)` on an iterator: the iterator wrapped with the function. */
  function AdaptIteratorWith<T, R>(it: Cursor, func: T -> R): LambdaAdaptor<T, R> {
    LambdaAdaptor(it, Some(func))
  }

  /** `adapt(obj, func)` on a container: only the begin cursor holds the function. */
  function AdaptContainerWith<T, R>(obj: Container<T>, func: T -> R): SimpleRange<LambdaAdaptor<T, R>> {
    SimpleRange(LambdaAdaptor(obj.Begin(), Some(func)), LambdaAdaptor(obj.End(), None))
  }

  function FunctorStep<T, R>(a: FunctorAdaptor<T, R>): FunctorAdaptor<T, R> { a.Next() }
  predicate FunctorSame<T, R>(a: FunctorAdaptor<T, R>, b: FunctorAdaptor<T, R>) { a.Eq(b) }
  function LambdaStep<T, R>(a: LambdaAdaptor<T, R>): LambdaAdaptor<T, R> { a.Next() }
  predicate LambdaSame<T, R>(a: LambdaAdaptor<T, R>, b: LambdaAdaptor<T, R>) { a.Eq(b) }

  lemma {:induction false} FunctorIncrements<T, R>(a: FunctorAdaptor<T, R>, k: nat)
    ensures Loops.Iterate(FunctorStep, a, k) == a.(base := a.base.Walked(k))
    decreases k
  {
    if k > 0 {
      FunctorIncrements(a, k - 1);
    }
  }

  lemma {:induction false} LambdaIncrements<T, R>(a: LambdaAdaptor<T, R>, k: nat)
    ensures Loops.Iterate(LambdaStep, a, k) == a.(base := a.base.Walked(k))
    decreases k
  {
    if k > 0 {
      LambdaIncrements(a, k - 1);
    }
  }

  /**
   * `a + n` on either adaptor lands on the slot `n` increments of the adaptor
   * reach, but as the plain wrapped cursor: `*(a + n)` is the raw element
   * there, not the function applied to it.
   */
  lemma AdaptorPlusSlices<T, R>(c: seq<T>, a: FunctorAdaptor<T, R>, b: LambdaAdaptor<T, R>, n: nat)
    requires a.base.category == RandomAccessTag && b.base.category == RandomAccessTag
    ensures a.Plus(n) == Loops.Iterate(FunctorStep, a, n).base
    ensures b.Plus(n) == Loops.Iterate(LambdaStep, b, n).base
    ensures 0 <= a.Plus(n).Slot() < |c| ==>
      Loops.Iterate(FunctorStep, a, n).Deref(c) == a.functor(c[a.Plus(n).Slot()])
  {
    FunctorIncrements(a, n);
    LambdaIncrements(b, n);
  }

  /**
   * `adapt<Functor>(it)` on an iterator: the `k`-th increment of the adaptor
   * dereferences to the functor applied to the element the `k`-th increment
   * of `it` refers to.
   */
  lemma AdaptIteratorTraversal<T, R>(c: seq<T>, it: Cursor, functor: T -> R, k: nat)
    requires 0 <= it.Walked(k).Slot() < |c|
    ensures var a := Loops.Iterate(FunctorStep, AdaptIterator(it, functor), k);
      a.base == it.Walked(k) && a.Deref(c) == functor(c[it.Walked(k).Slot()])
  {
    FunctorIncrements(AdaptIterator(it, functor), k);
  }

  /**
   * `adapt(it, func)` on an iterator: every increment keeps the function, and
   * the `k`-th dereferences to `func` of the element the `k`-th increment of
   * `it` refers to.
   */
  lemma AdaptIteratorWithTraversal<T, R>(c: seq<T>, it: Cursor, func: T -> R, k: nat)
    requires 0 <= it.Walked(k).Slot() < |c|
    ensures var a := Loops.Iterate(LambdaStep, AdaptIteratorWith(it, func), k);
      a.base == it.Walked(k) && a.func == Some(func) && a.Deref(c) == func(c[it.Walked(k).Slot()])
  {
    LambdaIncrements(AdaptIteratorWith(it, func), k);
  }

  /**
   * A loop over `adapt<Functor>(obj)` runs `obj.size()` times and its `i`-th
   * dereference is `Functor{}(obj[i])`: the adaptor keeps the container's
   * order; with random access, `end - begin` is the size.
   */
  lemma AdaptContainerTraversal<T, R>(obj: Container<T>, functor: T -> R)
    ensures var r := AdaptContainer(obj, functor);
      && Loops.StopsAfter(FunctorStep, FunctorSame, r.Begin(), r.End(), obj.Size())
      && forall i :: 0 <= i < obj.Size() ==>
        var a := Loops.Iterate(FunctorStep, r.Begin(), i);
        0 <= a.base.Slot() < obj.Size() && a.Deref(obj.elems) == functor(obj.elems[i])
    ensures obj.category == RandomAccessTag ==>
      AdaptContainer(obj, functor).End().Diff(AdaptContainer(obj, functor).Begin()) == obj.Size()
  {
    var r := AdaptContainer(obj, functor);
    forall k: nat | k <= obj.Size()
      ensures Loops.Iterate(FunctorStep, r.Begin(), k) == FunctorAdaptor(Cursor(obj.category, false, k), functor)
    {
      FunctorIncrements(r.Begin(), k);
    }
  }

  /**
   * A loop over `adapt(obj, func)` runs `obj.size()` times; every cursor it
   * dereferences holds the function, and the `i`-th dereference is
   * `func(obj[i])`. The end cursor holds none.
   */
  lemma AdaptContainerWithTraversal<T, R>(obj: Container<T>, func: T -> R)
    ensures var r := AdaptContainerWith(obj, func);
      && r.End().func.None?
      && Loops.StopsAfter(LambdaStep, LambdaSame, r.Begin(), r.End(), obj.Size())
      && forall i :: 0 <= i < obj.Size() ==>
        var a := Loops.Iterate(LambdaStep, r.Begin(), i);
        a.func.Some? && 0 <= a.base.Slot() < obj.Size() && a.Deref(obj.elems) == func(obj.elems[i])
  {
    var r := AdaptContainerWith(obj, func);
    forall k: nat | k <= obj.Size()
      ensures Loops.Iterate(LambdaStep, r.Begin(), k) == LambdaAdaptor(Cursor(obj.category, false, k), Some(func))
    {
      LambdaIncrements(r.Begin(), k);
    }
  }

  /**
   * intern::Deref: `*obj`, the object a pointer points to, returned as a
   * reference. Pointers and references are both the object's address here.
   */
  function DerefFunctor(ptr: nat): nat { ptr }

  /**
   * Adapting a container of pointers with Deref: the `i`-th dereference is a
   * reference to the object `values[i]` points to (the same address), so an
   * assignment through it changes that object; `end - begin` is the number
   * of pointers.
   */
  lemma DerefAdaptorAliases<V>(data: seq<V>, values: seq<nat>, i: nat, v: V)
    requires forall j :: 0 <= j < |values| ==> values[j] < |data|
    requires i < |values|
    ensures var r := AdaptContainer(Container(RandomAccessTag, values), DerefFunctor);
      var a := Loops.Iterate(FunctorStep, r.Begin(), i);
      && r.End().Diff(r.Begin()) == |values|
      && 0 <= a.base.Slot() < |values|
      && a.Deref(values) == values[i]
      && var written := data[a.Deref(values) := v];
      && written[values[i]] == v
      && forall j :: 0 <= j < |data| && j != values[i] ==> written[j] == data[j]
  {
    AdaptContainerTraversal(Container(RandomAccessTag, values), DerefFunctor);
  }

  /**
   * Adapting a container of pointers with a lambda that returns a reference
   * to the object pointed to: at the `i`-th cursor `*it` is that reference and
   * `it->` its address, both the object `values[i]` points to, so an
   * assignment through `it->` is what a later `*it` reads, and no other
   * object changes.
   */
  lemma LambdaReferenceAliases<V>(data: seq<V>, values: seq<nat>, i: nat, v: V)
    requires forall j :: 0 <= j < |values| ==> values[j] < |data|
    requires i < |values|
    ensures var r := AdaptContainerWith(Container(RandomAccessTag, values), DerefFunctor);
      var a := Loops.Iterate(LambdaStep, r.Begin(), i);
      && a.func.Some? && 0 <= a.base.Slot() < |values|
      && a.Deref(values) == values[i] && a.Arrow(values) == values[i]
      && var written := data[a.Arrow(values) := v];
      && written[a.Deref(values)] == v
      && forall j :: 0 <= j < |data| && j != values[i] ==> written[j] == data[j]
  {
    AdaptContainerWithTraversal(Container(RandomAccessTag, values), DerefFunctor);
  }
}
