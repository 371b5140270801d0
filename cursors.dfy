/**
 * The base cursors that enumerate and the adaptors wrap: an iterator of a
 * container, which is a position among its elements, and a
 * std::reverse_iterator over one. Both belong to the C++ standard library;
 * they are modelled as far as this library uses them.
 */
module Cursors {

  /** The iterator category tags, ordered by the operations they allow. */
  datatype Category = InputTag | ForwardTag | BidirectionalTag | RandomAccessTag {

    function Rank(): nat {
      match this
      case InputTag => 0
      case ForwardTag => 1
      case BidirectionalTag => 2
      case RandomAccessTag => 3
    }

    /** A cursor of this category offers every operation one of `other` offers. */
    predicate AtLeast(other: Category) {
      Rank() >= other.Rank()
    }
  }

  /**
   * A container iterator at position `base` or, when `reversed`, a
   * std::reverse_iterator whose `base()` is that position: it refers to the
   * element just before `base`, and `++` moves it towards the front.
   */
  datatype Cursor = Cursor(category: Category, reversed: bool, base: int) {

    /** The container slot `*it` refers to. */
    function Slot(): int {
      if reversed then base - 1 else base
    }

    function Next(): Cursor {
      this.(base := if reversed then base - 1 else base + 1)
    }

    function Prev(): Cursor
      requires category.AtLeast(BidirectionalTag)
    {
      this.(base := if reversed then base + 1 else base - 1)
    }

    function Plus(n: int): Cursor
      requires category == RandomAccessTag
    {
      this.(base := if reversed then base - n else base + n)
    }

    /** `it - other`, for two cursors of the same type. */
    function Diff(other: Cursor): int
      requires category == RandomAccessTag && SameType(this, other)
    {
      if reversed then other.base - base else base - other.base
    }

    predicate Eq(other: Cursor) {
      base == other.base
    }

    /** `it < other`, for two cursors of the same type. */
    predicate Less(other: Cursor)
      requires category == RandomAccessTag && SameType(this, other)
    {
      if reversed then base > other.base else base < other.base
    }

    /** Where `k` prefix increments leave the cursor. */
    function Walked(k: nat): Cursor {
      this.(base := if reversed then base - k else base + k)
    }
  }

  /** Two cursors of one C++ iterator type. */
  predicate SameType(a: Cursor, b: Cursor) {
    a.category == b.category && a.reversed == b.reversed
  }

  /** A container: the category of its iterators and its elements. */
  datatype Container<T> = Container(category: Category, elems: seq<T>) {

    function Size(): nat { |elems| }

    function Begin(): Cursor { Cursor(category, false, 0) }

    function End(): Cursor { Cursor(category, false, |elems|) }
  }

  /** std::make_reverse_iterator: a reverse cursor referring to the element before `it`. */
  function MakeReverse(it: Cursor): (r: Cursor)
    requires !it.reversed && it.category.AtLeast(BidirectionalTag)
    ensures r.reversed && r.category == it.category && r.Slot() == it.Slot() - 1
    ensures r.Next().Slot() == it.Prev().Slot() - 1
  {
    Cursor(it.category, true, it.base)
  }
}
