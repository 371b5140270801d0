/**
 * ez::intern::static_range<T, Start, SuggestEnd, Inc>: a range whose bounds
 * and step are compile-time constants. The compiler checks them, snaps the
 * end so that it lies a whole number of steps from the start, and the range's
 * begin() and end() are offset_adaptors over range_iterator<T> stepping by
 * Inc. A rejected range is a compile error, modelled as a Failure.
 */
module StaticRanges {
  import Loops
  import opened Wrappers
  import opened RangeIterators
  import opened Adapt

  /** The signed integral types T can be; std::ptrdiff_t is Int64. */
  datatype IntType = Int8 | Int16 | Int32 | Int64 {

    function Min(): int {
      match this
      case Int8 => -0x80
      case Int16 => -0x8000
      case Int32 => -0x8000_0000
      case Int64 => -0x8000_0000_0000_0000
    }

    function Max(): int {
      match this
      case Int8 => 0x7F
      case Int16 => 0x7FFF
      case Int32 => 0x7FFF_FFFF
      case Int64 => 0x7FFF_FFFF_FFFF_FFFF
    }

    predicate Contains(x: int) {
      Min() <= x <= Max()
    }

    /** Integer promotion: arithmetic on a type narrower than int is done in int. */
    function Arith(): IntType {
      if this == Int8 || this == Int16 then Int32 else this
    }

    /** Converting an int value to T keeps it modulo 2 to the width of T. */
    function Wrap(x: int): (r: int)
      ensures Contains(r)
      ensures (r - x) % (Max() - Min() + 1) == 0
      ensures Contains(x) ==> r == x
    {
      var m := Max() - Min() + 1;
      var q := (x - Min()) / m;
      var r := Min() + (x - Min()) % m;
      assert Contains(x) ==> (x - Min()) % m == x - Min();
      assert r - x == (-q) * m;
      DivModUnique(r - x, m, -q, 0);
      r
    }
  }

  const PtrDiff: IntType := Int64

  /** Why the compiler rejects a range. */
  datatype RangeError =
    | ZeroIncrement   // static_assert "The increment for the range cannot be zero."
    | WrongOrder      // static_assert on the order of Start and SuggestEnd
    | WouldOverflow   // static_assert "This range will overflow!" / "... underflow!"
    | NotConstant     // an expression in a static_assert or in End overflows: not a constant expression
    | NoSuchForm      // range_helper has no specialisation for this many arguments

  /** A static_range once accepted: the begin value, the snapped End, the step. */
  datatype StaticRange = StaticRange(start: int, end: int, inc: int) {

    /** `begin()`: an offset_adaptor at Start. */
    function Begin(): OffsetIter {
      OffsetIter(RangeIter(start), inc)
    }

    /** `end()`: an offset_adaptor at End. */
    function End(): OffsetIter {
      OffsetIter(RangeIter(end), inc)
    }
  }

  function Abs(x: int): nat { if x < 0 then -x else x }

  /** The number of whole steps from start to end, rounded down. */
  function Steps(r: StaticRange): nat
    requires r.inc != 0
  {
    Abs(r.end - r.start) / Abs(r.inc)
  }

  /** End lies a whole number of steps from Start, in the direction of Inc. */
  predicate Exact(r: StaticRange) {
    r.inc != 0 && r.start + Steps(r) * r.inc == r.end
  }

  /** Start lies before SuggestEnd in the direction of a non-zero Inc. */
  predicate Ordered(start: int, suggestEnd: int, inc: int) {
    if inc > 0 then start < suggestEnd else start > suggestEnd
  }

  /** `a - b` in the arithmetic type of T; None when it overflows, which the compiler rejects. */
  function Sub(t: IntType, a: int, b: int): Option<int> {
    if t.Arith().Contains(a - b) then Some(a - b) else None
  }

  /**
   * Whether the operands of the overflow guard as written are constant
   * expressions: `max - SuggestEnd` and `SuggestEnd - Start` for a positive
   * Inc; `Start - min`, `Start - SuggestEnd` and `-Inc` for a negative one.
   */
  predicate GuardCompiles(t: IntType, start: int, suggestEnd: int, inc: int) {
    if inc > 0 then t.Arith().Contains(t.Max() - suggestEnd) && t.Arith().Contains(suggestEnd - start)
    else t.Arith().Contains(start - t.Min()) && t.Arith().Contains(start - suggestEnd) && t.Arith().Contains(-inc)
  }

  /**
   * static_range as written: the static_asserts in order, each evaluated as
   * the compiler evaluates it, and End as the code computes it,
   * `SuggestEnd + (SuggestEnd - Start) % Inc` for a positive Inc and
   * `SuggestEnd - (Start - SuggestEnd) % -Inc` for a negative one. Every `%`
   * here has positive operands, where C++ and Dafny agree.
   */
  function StaticRangeAsWritten(t: IntType, start: int, suggestEnd: int, inc: int): (r: Result<StaticRange, RangeError>)
    requires t.Contains(start) && t.Contains(suggestEnd) && t.Contains(inc)
    ensures r.Success? ==> r.value.start == start && r.value.inc == inc && inc != 0 && Ordered(start, suggestEnd, inc)
    ensures r.Success? ==> t.Contains(r.value.end)
    ensures inc > 0 && r.Success? ==>
      r.value.end == suggestEnd + (suggestEnd - start) % inc && suggestEnd <= r.value.end < suggestEnd + inc
    ensures inc < 0 && r.Success? ==>
      r.value.end == t.Wrap(suggestEnd - (start - suggestEnd) % -inc)
    ensures inc == 0 ==> r == Failure(ZeroIncrement)
    ensures inc != 0 && !Ordered(start, suggestEnd, inc) ==> r == Failure(WrongOrder)
    ensures inc != 0 && Ordered(start, suggestEnd, inc) && !GuardCompiles(t, start, suggestEnd, inc) ==>
      r == Failure(NotConstant)
    ensures inc > 0 && Ordered(start, suggestEnd, inc) && GuardCompiles(t, start, suggestEnd, inc) ==>
      && (r.Success? <==> t.Contains(suggestEnd + (suggestEnd - start) % inc))
      && (r.Failure? ==> r.error == WouldOverflow)
    ensures inc < 0 && Ordered(start, suggestEnd, inc) && GuardCompiles(t, start, suggestEnd, inc) ==>
      var rem := (start - suggestEnd) % -inc;
      && (r.Success? <==> start - t.Min() >= rem && t.Arith().Contains(suggestEnd - rem))
      && (start - t.Min() < rem ==> r == Failure(WouldOverflow))
  {
    if inc >= 0 then
      if inc == 0 then Failure(ZeroIncrement)
      else if !(start < suggestEnd) then Failure(WrongOrder)
      else match (Sub(t, t.Max(), suggestEnd), Sub(t, suggestEnd, start))
        case (Some(room), Some(span)) =>
          if room >= span % inc then Success(StaticRange(start, suggestEnd + span % inc, inc))
          else Failure(WouldOverflow)
        case _ => Failure(NotConstant)
    else
      if !(start > suggestEnd) then Failure(WrongOrder)
      else match (Sub(t, start, t.Min()), Sub(t, start, suggestEnd), Sub(t, 0, inc))
        case (Some(room), Some(span), Some(step)) =>
          if room >= span % step then
            match Sub(t, suggestEnd, span % step)
            case Some(e) => Success(StaticRange(start, t.Wrap(e), inc))
            case None => Failure(NotConstant)
          else Failure(WouldOverflow)
        case _ => Failure(NotConstant)
  }

  /** How far End must lie beyond SuggestEnd: the distance rounded up to a whole number of steps. */
  function Pad(span: nat, step: nat): nat
    requires step > 0
  {
    (step - span % step) % step
  }

  /** End snapped outwards to the first whole number of steps at or beyond SuggestEnd. */
  function SnappedEnd(start: int, suggestEnd: int, inc: int): int
    requires inc != 0 && Ordered(start, suggestEnd, inc)
  {
    if inc > 0 then suggestEnd + Pad(suggestEnd - start, inc)
    else suggestEnd - Pad(start - suggestEnd, -inc)
  }

  /**
   * static_range as its comments promise it: the same checks, End a whole
   * number of steps from Start and less than one step beyond SuggestEnd, and
   * the overflow check made on that End, in exact arithmetic.
   */
  function StaticRangeOf(t: IntType, start: int, suggestEnd: int, inc: int): (r: Result<StaticRange, RangeError>)
    requires t.Contains(start) && t.Contains(suggestEnd) && t.Contains(inc)
    ensures r.Success? <==> inc != 0 && Ordered(start, suggestEnd, inc) && t.Contains(SnappedEnd(start, suggestEnd, inc))
    ensures r.Success? ==>
      && r.value.start == start && r.value.inc == inc && t.Contains(r.value.end)
      && Exact(r.value)
      && (inc > 0 ==> suggestEnd <= r.value.end < suggestEnd + inc)
      && (inc < 0 ==> suggestEnd + inc < r.value.end <= suggestEnd)
    ensures inc == 0 ==> r == Failure(ZeroIncrement)
    ensures inc != 0 && !Ordered(start, suggestEnd, inc) ==> r == Failure(WrongOrder)
  {
    if inc == 0 then Failure(ZeroIncrement)
    else if !Ordered(start, suggestEnd, inc) then Failure(WrongOrder)
    else
      var e := SnappedEnd(start, suggestEnd, inc);
      if !t.Contains(e) then Failure(WouldOverflow)
      else
        SnappedEndIsExact(start, suggestEnd, inc);
        Success(StaticRange(start, e, inc))
  }

  /** Euclidean division has one quotient and one remainder. */
  lemma DivModUnique(x: int, m: int, q: int, r: int)
    requires m > 0 && 0 <= r < m && x == q * m + r
    ensures x / m == q && x % m == r
  {
    var q', r' := x / m, x % m;
    if q' < q {
      assert (q - q') * m >= m by { MulAtLeast(q - q', m); }
    } else if q' > q {
      assert (q' - q) * m >= m by { MulAtLeast(q' - q, m); }
    }
  }

  lemma MulAtLeast(a: int, m: int)
    requires a >= 1 && m > 0
    ensures a * m >= m
  {
    assert a * m == (a - 1) * m + m;
  }

  /** `a <= b` scales by a non-negative factor. */
  lemma MulMonotone(a: int, b: int, m: int)
    requires a <= b && m >= 0
    ensures a * m <= b * m
  {
    assert b * m - a * m == (b - a) * m;
  }

  /**
   * Padding by Pad rounds a distance up to a whole number of steps: the
   * result is the least multiple of `step` that is at least `span`.
   */
  lemma PadRoundsUp(span: nat, step: nat)
    requires step > 0 && span > 0
    ensures Pad(span, step) < step
    ensures (span + Pad(span, step)) % step == 0
    ensures var n := (span + Pad(span, step)) / step;
      n >= 1 && n * step == span + Pad(span, step) && (n - 1) * step < span
  {
    var q, r := span / step, span % step;
    if r == 0 {
      DivModUnique(step, step, 1, 0);
      DivModUnique(span, step, q, 0);
      if q < 1 { MulMonotone(q, 0, step); }
    } else {
      DivModUnique(step - r, step, 0, step - r);
      DivModUnique(span + step - r, step, q + 1, 0);
      if q < 0 { MulMonotone(q, -1, step); }
    }
  }

  /**
   * The snapped End lies a whole number of steps from Start, at or beyond
   * SuggestEnd but less than one step beyond it.
   */
  lemma SnappedEndIsExact(start: int, suggestEnd: int, inc: int)
    requires inc != 0 && Ordered(start, suggestEnd, inc)
    ensures Exact(StaticRange(start, SnappedEnd(start, suggestEnd, inc), inc))
    ensures inc > 0 ==> suggestEnd <= SnappedEnd(start, suggestEnd, inc) < suggestEnd + inc
    ensures inc < 0 ==> suggestEnd + inc < SnappedEnd(start, suggestEnd, inc) <= suggestEnd
  {
    var e := SnappedEnd(start, suggestEnd, inc);
    var span, step := Abs(suggestEnd - start), Abs(inc);
    PadRoundsUp(span, step);
    var n := (span + Pad(span, step)) / step;
    assert Abs(e - start) == span + Pad(span, step);
    assert Steps(StaticRange(start, e, inc)) == n;
    if inc < 0 {
      assert n * inc == -(n * step);
    }
  }

  /**
   * With End a whole number `n` of steps from Start, the loop from begin()
   * to end() runs exactly `n` times and its `k`-th value is `Start + k*Inc`.
   */
  lemma ExactRangeTraversal(r: StaticRange)
    requires Exact(r)
    ensures Loops.StopsAfter(OffsetStep, OffsetSame, r.Begin(), r.End(), Steps(r))
    ensures forall k :: 0 <= k <= Steps(r) ==>
      Loops.Iterate(OffsetStep, r.Begin(), k).Deref() == r.start + k * r.inc
  {
    var n := Steps(r);
    forall k: nat | k <= n
      ensures Loops.Iterate(OffsetStep, r.Begin(), k) == OffsetIter(RangeIter(r.start + k * r.inc), r.inc)
    {
      OffsetIncrements(r.Begin(), k);
    }
    forall k | 0 <= k < n
      ensures !OffsetSame(Loops.Iterate(OffsetStep, r.Begin(), k), r.End())
    {
      assert (n - k) * r.inc != 0;
      assert n * r.inc - k * r.inc == (n - k) * r.inc;
    }
  }

  /**
   * The loop from begin() to end() of `r` yields Start, Start + Inc, ... and
   * stops at End: the number of values is the distance to SuggestEnd divided
   * by the step, rounded up, and every value lies between Start and
   * SuggestEnd, so all the values of the suggested range are covered and none
   * beyond it.
   */
  ghost predicate Covers(r: StaticRange, suggestEnd: int) {
    && r.inc != 0
    && var n := Steps(r);
    && Loops.StopsAfter(OffsetStep, OffsetSame, r.Begin(), r.End(), n)
    && (n - 1) * Abs(r.inc) < Abs(suggestEnd - r.start) <= n * Abs(r.inc)
    && forall k :: 0 <= k < n ==>
      var v := Loops.Iterate(OffsetStep, r.Begin(), k).Deref();
      v == r.start + k * r.inc &&
      (r.inc > 0 ==> r.start <= v < suggestEnd) &&
      (r.inc < 0 ==> suggestEnd < v <= r.start)
  }

  /** Every range the corrected static_range accepts covers its suggested range. */
  lemma StaticRangeTraversal(t: IntType, start: int, suggestEnd: int, inc: int)
    requires t.Contains(start) && t.Contains(suggestEnd) && t.Contains(inc)
    requires StaticRangeOf(t, start, suggestEnd, inc).Success?
    ensures Covers(StaticRangeOf(t, start, suggestEnd, inc).value, suggestEnd)
  {
    var r := StaticRangeOf(t, start, suggestEnd, inc).value;
    var n := Steps(r);
    var span, step := Abs(suggestEnd - start), Abs(inc);
    SnappedEndIsExact(start, suggestEnd, inc);
    ExactRangeTraversal(r);
    PadRoundsUp(span, step);
    assert Abs(r.end - start) == span + Pad(span, step);
    forall k | 0 <= k < n
      ensures (inc > 0 ==> start <= start + k * inc < suggestEnd)
      ensures (inc < 0 ==> suggestEnd < start + k * inc <= start)
    {
      StepWithin(start, suggestEnd, inc, n, k);
    }
  }

  /** Fewer than `n` steps stay short of a distance that `n - 1` steps do not reach. */
  lemma StepWithin(start: int, suggestEnd: int, inc: int, n: nat, k: nat)
    requires inc != 0 && Ordered(start, suggestEnd, inc)
    requires (n - 1) * Abs(inc) < Abs(suggestEnd - start) && k < n
    ensures inc > 0 ==> start <= start + k * inc < suggestEnd
    ensures inc < 0 ==> suggestEnd < start + k * inc <= start
  {
    var step := Abs(inc);
    MulMonotone(0, k, step);
    MulMonotone(k, n - 1, step);
    if inc < 0 {
      assert k * inc == -(k * step);
    }
  }

  /**
   * Whether End, as the code computes it for a positive Inc, is a whole
   * number of steps from Start: only when the remainder of the distance is 0
   * or exactly half a step.
   */
  lemma AsWrittenEndExactIff(span: nat, step: nat)
    requires step > 0 && span > 0
    ensures (span + span % step) % step == 0 <==> span % step == 0 || 2 * (span % step) == step
  {
    var q, r := span / step, span % step;
    if 2 * r < step {
      DivModUnique(span + r, step, q, 2 * r);
    } else {
      DivModUnique(span + r, step, q + 1, 2 * r - step);
    }
  }

  /**
   * For a positive Inc, the range as written is a whole number of steps long
   * exactly when the distance from Start to SuggestEnd leaves a remainder of
   * 0 or of half a step; otherwise the loop passes End without meeting it.
   */
  lemma AsWrittenExactIff(t: IntType, start: int, suggestEnd: int, inc: int)
    requires t.Contains(start) && t.Contains(suggestEnd) && t.Contains(inc) && inc > 0
    requires StaticRangeAsWritten(t, start, suggestEnd, inc).Success?
    ensures var rem := (suggestEnd - start) % inc;
      Exact(StaticRangeAsWritten(t, start, suggestEnd, inc).value) <==> rem == 0 || 2 * rem == inc
  {
    var r := StaticRangeAsWritten(t, start, suggestEnd, inc).value;
    var span := suggestEnd - start;
    var d := r.end - r.start;
    assert d == span + span % inc && d > 0;
    assert Steps(r) == d / inc;
    assert d == (d / inc) * inc + d % inc;
    AsWrittenEndExactIff(span, inc);
  }

  /**
   * `static_range<ptrdiff_t, 0, 10, 3>` as written: End is 11, which lies
   * between 9 and 12, so the loop from begin() never reaches end().
   */
  lemma AsWrittenMissesEnd()
    ensures StaticRangeAsWritten(PtrDiff, 0, 10, 3) == Success(StaticRange(0, 11, 3))
    ensures Loops.NeverStops(OffsetStep, OffsetSame, StaticRange(0, 11, 3).Begin(), StaticRange(0, 11, 3).End())
  {
    var r := StaticRange(0, 11, 3);
    forall k: nat
      ensures !OffsetSame(Loops.Iterate(OffsetStep, r.Begin(), k), r.End())
    {
      OffsetIncrements(r.Begin(), k);
    }
  }

  /**
   * The same for a negative step: `static_range<ptrdiff_t, -1, -11, -3>` as
   * written has End -12, between -10 and -13, and never stops.
   */
  lemma AsWrittenMissesEndDescending()
    ensures StaticRangeAsWritten(PtrDiff, -1, -11, -3) == Success(StaticRange(-1, -12, -3))
    ensures Loops.NeverStops(OffsetStep, OffsetSame, StaticRange(-1, -12, -3).Begin(), StaticRange(-1, -12, -3).End())
  {
    DivModUnique(10, 3, 3, 1);
    var r := StaticRange(-1, -12, -3);
    forall k: nat
      ensures !OffsetSame(Loops.Iterate(OffsetStep, r.Begin(), k), r.End())
    {
      OffsetIncrements(r.Begin(), k);
    }
  }

  /**
   * The corrected range for the same arguments: End is 12, and the loop
   * yields 0, 3, 6, 9 and stops; descending from -1 towards -11, End is -13
   * and the loop yields -1, -4, -7, -10.
   */
  lemma SnappedEndExamples()
    ensures StaticRangeOf(PtrDiff, 0, 10, 3) == Success(StaticRange(0, 12, 3))
    ensures Loops.StopsAfter(OffsetStep, OffsetSame, StaticRange(0, 12, 3).Begin(), StaticRange(0, 12, 3).End(), 4)
    ensures Loops.Visit(OffsetStep, OffsetItem, StaticRange(0, 12, 3).Begin(), 4) == [0, 3, 6, 9]
    ensures StaticRangeOf(PtrDiff, -1, -11, -3) == Success(StaticRange(-1, -13, -3))
    ensures Loops.Visit(OffsetStep, OffsetItem, StaticRange(-1, -13, -3).Begin(), 4) == [-1, -4, -7, -10]
  {
    assert Pad(10, 3) == 2 by { DivModUnique(10, 3, 3, 1); DivModUnique(2, 3, 0, 2); }
    var r := StaticRange(0, 12, 3);
    ExactRangeTraversal(r);
    assert Steps(r) == 4;
    var down := StaticRange(-1, -13, -3);
    ExactRangeTraversal(down);
    assert Steps(down) == 4;
  }

  /**
   * The overflow guards as written are themselves evaluated in T: for
   * ptrdiff_t, `max - SuggestEnd` overflows when SuggestEnd is negative and
   * `Start - min` overflows when Start is not negative, so every ascending
   * range that ends below zero and every descending range that starts at or
   * above zero fails to compile.
   */
  lemma AsWrittenGuardRejects(start: int, suggestEnd: int, inc: int)
    requires PtrDiff.Contains(start) && PtrDiff.Contains(suggestEnd) && PtrDiff.Contains(inc)
    ensures inc > 0 && start < suggestEnd < 0 ==> StaticRangeAsWritten(PtrDiff, start, suggestEnd, inc) == Failure(NotConstant)
    ensures inc < 0 && suggestEnd < start && 0 <= start ==> StaticRangeAsWritten(PtrDiff, start, suggestEnd, inc) == Failure(NotConstant)
  {
  }

  /**
   * The corrected range accepts what the guards as written reject: with a
   * unit step no padding is needed, so `srange<10, 0>` (Start 10, Inc -1) and
   * `srange<-10, -4>` are ranges ending at SuggestEnd.
   */
  lemma GuardExamples()
    ensures StaticRangeOf(PtrDiff, 10, 0, -1) == Success(StaticRange(10, 0, -1))
    ensures StaticRangeOf(PtrDiff, -10, -4, 1) == Success(StaticRange(-10, -4, 1))
  {
    assert Pad(10, 1) == 0 by { DivModUnique(10, 1, 10, 0); DivModUnique(1, 1, 1, 0); }
    assert Pad(6, 1) == 0 by { DivModUnique(6, 1, 6, 0); DivModUnique(1, 1, 1, 0); }
  }

  /**
   * The guard for a negative Inc measures the room below Start, but End lies
   * below SuggestEnd: `static_range<int8_t, -125, -128, -2>` passes the guard,
   * End is -129 before the conversion to int8_t and 127 after it, above a
   * range that descends from -125. The corrected range rejects it. In the
   * program the int8_t index wraps in the same way, so the loop yields -125
   * and -127 and then steps to 127, which is End, by wrap-around alone.
   */
  lemma AsWrittenEndWraps()
    ensures StaticRangeAsWritten(Int8, -125, -128, -2) == Success(StaticRange(-125, 127, -2))
    ensures StaticRangeOf(Int8, -125, -128, -2) == Failure(WouldOverflow)
    ensures Int8.Wrap(-127 - 2) == 127
  {
    assert Pad(3, 2) == 1 by { DivModUnique(3, 2, 1, 1); DivModUnique(1, 2, 0, 1); }
  }
}
