/**
 * ez::srange and ez::tsrange: static ranges written with one, two or three
 * bounds. range_helper fills in what is left out (a Start of 0, a step of +1
 * or -1 towards the end) and builds the static_range from them.
 */
module Ranges {
  import Loops
  import opened Wrappers
  import opened Adapt
  import opened StaticRanges

  /**
   * Which static_range the helpers instantiate: the header as written, or the
   * one whose End and overflow check are corrected.
   */
  datatype Version = AsWritten | Corrected

  /** `static_range<T, Start, SuggestEnd, Inc>` in the chosen version. */
  function Build(v: Version, t: IntType, start: int, suggestEnd: int, inc: int): Result<StaticRange, RangeError>
    requires t.Contains(start) && t.Contains(suggestEnd) && t.Contains(inc)
  {
    match v
    case AsWritten => StaticRangeAsWritten(t, start, suggestEnd, inc)
    case Corrected => StaticRangeOf(t, start, suggestEnd, inc)
  }

  /** The step range_helper chooses: +1 when End is not below Start, -1 otherwise. */
  function InferredInc(start: int, end: int): (inc: int)
    ensures inc == 1 || inc == -1
    ensures inc > 0 <==> end >= start
  {
    if end >= start then 1 else -1
  }

  /** A unit step never needs padding. */
  lemma UnitStepNeedsNoPad(span: nat)
    ensures Pad(span, 1) == 0
  {
    DivModUnique(span, 1, span, 0);
    DivModUnique(1, 1, 1, 0);
  }

  /**
   * Whether the overflow guard of static_range as written compiles for a unit
   * step from Start to End. In a type narrower than int the guard is computed
   * in int and never overflows. Otherwise, going up, `max - End` needs End not
   * negative and `End - Start` must fit; going down, `Start - min` needs Start
   * negative (then `Start - End` always fits).
   */
  predicate UnitGuardCompiles(t: IntType, start: int, end: int) {
    || t.Arith() != t
    || (if start < end then 0 <= end && end - start <= t.Max() else start < 0)
  }

  /** static_range as written with a unit step: accepted exactly when its guard compiles, and then ending at End. */
  lemma AsWrittenUnitStep(t: IntType, start: int, end: int)
    requires t.Contains(start) && t.Contains(end)
    ensures start != end ==> (StaticRangeAsWritten(t, start, end, InferredInc(start, end)) ==
      if UnitGuardCompiles(t, start, end) then Success(StaticRange(start, end, InferredInc(start, end)))
      else Failure(NotConstant))
  {
    DivModUnique(Abs(end - start), 1, Abs(end - start), 0);
  }

  /**
   * `range_helper<T, Start, End>`: a unit step towards End. The corrected
   * range accepts every pair of distinct bounds; the range as written only
   * the pairs whose guard compiles. An accepted range ends at End itself.
   */
  function RangeHelper2(v: Version, t: IntType, start: int, end: int): (r: Result<StaticRange, RangeError>)
    requires t.Contains(start) && t.Contains(end)
    ensures r.Success? <==> start != end && (v == Corrected || UnitGuardCompiles(t, start, end))
    ensures r.Success? ==> r.value == StaticRange(start, end, InferredInc(start, end))
    ensures start == end ==> r == Failure(WrongOrder)
    ensures v == AsWritten && start != end && !UnitGuardCompiles(t, start, end) ==> r == Failure(NotConstant)
  {
    UnitStepNeedsNoPad(Abs(end - start));
    AsWrittenUnitStep(t, start, end);
    Build(v, t, start, end, InferredInc(start, end))
  }

  /**
   * `range_helper<T, End>`: the two-bound range from 0 to End, so `End == 0`
   * is rejected. A negative End counts down from 0 in the corrected range and
   * in a type narrower than int; as written, in int, long or ptrdiff_t it does
   * not compile.
   */
  function RangeHelper1(v: Version, t: IntType, end: int): (r: Result<StaticRange, RangeError>)
    requires t.Contains(end)
    ensures r == RangeHelper2(v, t, 0, end)
    ensures r.Success? <==> end != 0 && (v == Corrected || t.Arith() != t || end > 0)
  {
    Build(v, t, 0, end, InferredInc(0, end))
  }

  predicate AllIn(t: IntType, args: seq<int>) {
    forall i | 0 <= i < |args| :: t.Contains(args[i])
  }

  /**
   * `tsrange<T, Ts...>`: range_helper chosen by the number of bounds; any
   * other number has no specialisation, whose empty struct has no `value`.
   */
  function Tsrange(v: Version, t: IntType, args: seq<int>): Result<StaticRange, RangeError>
    requires AllIn(t, args)
  {
    if |args| == 1 then RangeHelper1(v, t, args[0])
    else if |args| == 2 then RangeHelper2(v, t, args[0], args[1])
    else if |args| == 3 then Build(v, t, args[0], args[1], args[2])
    else Failure(NoSuchForm)
  }

  /** `srange<Ts...>`: tsrange over std::ptrdiff_t. */
  function Srange(v: Version, args: seq<int>): Result<StaticRange, RangeError>
    requires AllIn(PtrDiff, args)
  {
    Tsrange(v, PtrDiff, args)
  }

  /** The Start a form uses: 0 when only the end is given. */
  function FormStart(args: seq<int>): int
    requires 1 <= |args| <= 3
  {
    if |args| == 1 then 0 else args[0]
  }

  /** The SuggestEnd a form uses. */
  function FormEnd(args: seq<int>): int
    requires 1 <= |args| <= 3
  {
    if |args| == 1 then args[0] else args[1]
  }

  /** The Inc a form uses: the given one, or a unit step towards the end. */
  function FormInc(args: seq<int>): int
    requires 1 <= |args| <= 3
  {
    if |args| == 3 then args[2] else InferredInc(FormStart(args), FormEnd(args))
  }

  /**
   * Every accepted tsrange has one, two or three bounds and starts at the
   * form's Start with the form's step. Its loop covers the suggested range
   * (Covers: it stops after the distance divided by the step, rounded up, and
   * yields Start + k * Inc) whenever End is exact: always for the corrected
   * range, and for the unit-step forms as written.
   */
  lemma TsrangeTraversal(v: Version, t: IntType, args: seq<int>)
    requires AllIn(t, args) && Tsrange(v, t, args).Success?
    ensures 1 <= |args| <= 3
    ensures var r := Tsrange(v, t, args).value;
      && r.start == FormStart(args) && r.inc == FormInc(args)
      && (v == Corrected || |args| <= 2 ==> Covers(r, FormEnd(args)))
  {
    var r := Tsrange(v, t, args).value;
    var s, e, i := FormStart(args), FormEnd(args), FormInc(args);
    assert t.Contains(s) && t.Contains(e) && t.Contains(i);
    assert Tsrange(v, t, args) == Build(v, t, s, e, i);
    if v == Corrected {
      StaticRangeTraversal(t, s, e, i);
    } else if |args| <= 2 {
      UnitStepNeedsNoPad(Abs(e - s));
      assert StaticRangeOf(t, s, e, i) == Success(r);
      StaticRangeTraversal(t, s, e, i);
    }
  }

  /**
   * A range with a unit step from Start to End yields every integer from
   * Start up to End - 1, or down to End + 1, in order, one per loop turn.
   */
  lemma UnitRangeTraversal(v: Version, t: IntType, start: int, end: int)
    requires t.Contains(start) && t.Contains(end) && RangeHelper2(v, t, start, end).Success?
    ensures var r := RangeHelper2(v, t, start, end).value;
      var n := Abs(end - start);
      var inc := InferredInc(start, end);
      && Loops.StopsAfter(OffsetStep, OffsetSame, r.Begin(), r.End(), n)
      && Loops.Visit(OffsetStep, OffsetItem, r.Begin(), n) == seq(n, k => start + k * inc)
  {
    var r := RangeHelper2(v, t, start, end).value;
    var n := Abs(end - start);
    DivModUnique(n, 1, n, 0);
    assert Steps(r) == n;
    ExactRangeTraversal(r);
  }

  /** `srange<5>` yields 0 to 4. */
  lemma OneBoundExample()
    ensures Srange(AsWritten, [5]) == Success(StaticRange(0, 5, 1))
    ensures Loops.Visit(OffsetStep, OffsetItem, StaticRange(0, 5, 1).Begin(), 5) == [0, 1, 2, 3, 4]
  {
    assert RangeHelper2(AsWritten, PtrDiff, 0, 5) == Success(StaticRange(0, 5, 1));
    UnitRangeTraversal(AsWritten, PtrDiff, 0, 5);
  }

  /** `srange<-5>` does not compile as written; `tsrange<int8_t, -5>` does. */
  lemma NegativeBoundAsWritten()
    ensures Srange(AsWritten, [-5]) == Failure(NotConstant)
    ensures Tsrange(AsWritten, Int8, [-5]) == Success(StaticRange(0, -5, -1))
  {
    assert Srange(AsWritten, [-5]) == RangeHelper1(AsWritten, PtrDiff, -5);
    assert Tsrange(AsWritten, Int8, [-5]) == RangeHelper1(AsWritten, Int8, -5);
  }

  /** The corrected `srange<-5>` counts 0, -1, ..., -4. */
  lemma NegativeBoundCorrected()
    ensures Srange(Corrected, [-5]) == Success(StaticRange(0, -5, -1))
    ensures Loops.Visit(OffsetStep, OffsetItem, StaticRange(0, -5, -1).Begin(), 5) == [0, -1, -2, -3, -4]
  {
    assert Srange(Corrected, [-5]) == RangeHelper1(Corrected, PtrDiff, -5);
    UnitRangeTraversal(Corrected, PtrDiff, 0, -5);
  }

  /** `srange<3, 0>` does not compile as written; `tsrange<int16_t, 3, 0>` does. */
  lemma TwoBoundAsWritten()
    ensures Srange(AsWritten, [3, 0]) == Failure(NotConstant)
    ensures Tsrange(AsWritten, Int16, [3, 0]) == Success(StaticRange(3, 0, -1))
  {
    assert Srange(AsWritten, [3, 0]) == RangeHelper2(AsWritten, PtrDiff, 3, 0);
    assert Tsrange(AsWritten, Int16, [3, 0]) == RangeHelper2(AsWritten, Int16, 3, 0);
  }

  /** The corrected `srange<3, 0>` counts down 3, 2, 1. */
  lemma TwoBoundCorrected()
    ensures Srange(Corrected, [3, 0]) == Success(StaticRange(3, 0, -1))
    ensures Loops.Visit(OffsetStep, OffsetItem, StaticRange(3, 0, -1).Begin(), 3) == [3, 2, 1]
  {
    assert Srange(Corrected, [3, 0]) == RangeHelper2(Corrected, PtrDiff, 3, 0);
    UnitRangeTraversal(Corrected, PtrDiff, 3, 0);
  }

  /** `srange<0>` is an empty range, which static_range rejects; `srange<>` has no form. */
  lemma RejectedExamples()
    ensures Srange(AsWritten, [0]) == Failure(WrongOrder)
    ensures Srange(Corrected, [0]) == Failure(WrongOrder)
    ensures Srange(AsWritten, []) == Failure(NoSuchForm)
  {
  }

  /** `srange<0, 10, 2>` as written ends at 10 and yields 0, 2, 4, 6, 8. */
  lemma SteppedExample()
    ensures Srange(AsWritten, [0, 10, 2]) == Success(StaticRange(0, 10, 2))
    ensures Loops.StopsAfter(OffsetStep, OffsetSame, StaticRange(0, 10, 2).Begin(), StaticRange(0, 10, 2).End(), 5)
    ensures Loops.Visit(OffsetStep, OffsetItem, StaticRange(0, 10, 2).Begin(), 5) == [0, 2, 4, 6, 8]
  {
    DivModUnique(10, 2, 5, 0);
    assert Srange(AsWritten, [0, 10, 2]) == StaticRangeAsWritten(PtrDiff, 0, 10, 2);
    var r := StaticRange(0, 10, 2);
    assert Steps(r) == 5;
    ExactRangeTraversal(r);
  }

  /** The corrected `srange<0, 10, 2>` is the same range. */
  lemma SteppedCorrected()
    ensures Srange(Corrected, [0, 10, 2]) == Success(StaticRange(0, 10, 2))
  {
    DivModUnique(10, 2, 5, 0);
    assert Pad(10, 2) == 0 by { DivModUnique(2, 2, 1, 0); }
    assert Srange(Corrected, [0, 10, 2]) == StaticRangeOf(PtrDiff, 0, 10, 2);
  }

  /**
   * Every descending srange that starts at or above zero, such as
   * `srange<10, 0>`, is rejected by static_range as written, because its
   * underflow guard overflows; the corrected range accepts each of them.
   */
  lemma DescendingSrangeAsWritten(start: int, end: int)
    requires PtrDiff.Contains(start) && PtrDiff.Contains(end) && end < start && 0 <= start
    ensures Srange(AsWritten, [start, end]) == Failure(NotConstant)
    ensures Srange(Corrected, [start, end]) == Success(StaticRange(start, end, -1))
  {
    assert RangeHelper2(AsWritten, PtrDiff, start, end) == Failure(NotConstant);
  }
}
