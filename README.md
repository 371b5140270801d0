# ez-iterator, modelled in Dafny

ez-iterator is a header-only C++ library of iterator adaptors. It has four parts:

- `enumerate` pairs every element of a container with its index.
- `renumerate` does the same walking back to front.
- `srange`/`tsrange` are integer ranges whose bounds and step are compile-time constants.
- `adapt` applies a function to every element a cursor yields.

This project models those parts and proves properties of the model.

Every C++ iterator here is a small value that is copied freely and mutated in place by `++`, `--`, `+=` and `-=`. Each iterator therefore appears twice:

- A datatype is its value: `RangeIter`, `EnumIter` or `OffsetIter`. The const operators (`+`, `-`, `[]`, `==`, `<` and the rest) are functions on it.
- A class has the same fields: `RangeIterator`, `EnumerateIterator` or `OffsetAdaptor`. Its mutating operators are methods specified against the value, for example `Value() == old(Value()).Next()`.

The range-based `for` loop that consumes every range is modelled once, in module `Loops`:

- `Iterate` applies `++` `k` times.
- `StopsAfter` says the loop runs exactly `n` times.
- `NeverStops` says the loop never meets `end()`.
- `Visit` is the sequence of values the loop body sees.

The properties are stated against these definitions.

Modules, one per header, plus the shared parts:

- `Wrappers`: `Option` and `Result`.
- `Loops`: the `for` loop protocol.
- `Cursors`: the standard-library cursors the library wraps.
  - A container iterator is a position.
  - `std::reverse_iterator` has a `base()` and refers to the element before it.
  - An iterator category is a ranked tag.
  - A reference to an element is the container slot it aliases.
- `RangeIterators`: `intern/helpers.hpp`.
- `Enumerate`: `enumerate.hpp`.
- `Adapt`: `adapt.hpp`.
- `StaticRanges`: `intern/static_range.hpp`.
  - The integral type `T` is one of the signed types `int8_t` to `int64_t`.
  - Arithmetic in a static_assert is done in `T` after integer promotion.
  - An expression that overflows there is not a constant expression.
  - A rejected range is a `Failure` naming why the compiler rejects it.
- `Ranges`: `range.hpp`.
  - Every helper takes a `Version`: `AsWritten` instantiates static_range as the header writes it, `Corrected` the corrected one (see Findings).

Three behaviours of the code a reader may not expect:

- Two enumerate iterators compare equal when their base cursors do. The index is ignored.
- `lambda_adaptor` holds a pointer to the function. Both adaptors inherit `++`, `--` and `+ n` from the cursor they wrap. `++` and `--` move the adaptor in place. `+ n` is the wrapped cursor's own operator, so it returns a plain cursor, and dereferencing that cursor gives the raw element, not the function's result.
- `srange<-5>` as written does not compile, because its step is -1 and the underflow guard computes `Start - min`, here `0 - PTRDIFF_MIN`, which overflows in `ptrdiff_t`. `tsrange<int8_t, -5>` compiles, and so does the corrected `srange<-5>`; both count 0, -1, …, -4.

## Model

| member | source | states |
|---|---|---|
| RangeIterators.PlusLeft | include/ez/iterator/intern/helpers.hpp:102-105 | corrected `val + it` (as written it does not compile, see Left out): the cursor `it + val`, at distance `val` from `it` |
| RangeIterators.StepsAreInverse | include/ez/iterator/intern/helpers.hpp:35-53 | `++` and `--` undo each other and are `+ 1` and `- 1` |
| RangeIterators.OffsetLaws | include/ez/iterator/intern/helpers.hpp:55-63 | `(it + n) - it == n`; `+ n` and `- n` undo each other; `it[n]` is `*(it + n)` |
| RangeIterators.ComparisonsAgree | include/ez/iterator/intern/helpers.hpp:74-93 | `==` is equality of cursors; the six comparisons are one total order given by the sign of the difference |
| RangeIterators.IncrementsAreOffset | include/ez/iterator/intern/helpers.hpp:35-38 | `k` prefix increments move the cursor as `+= k` does |
| RangeIterators.RangeIterator.constructor | include/ez/iterator/intern/helpers.hpp:20-22 | the cursor stands on the given integer |
| RangeIterators.RangeIterator.Increment | include/ez/iterator/intern/helpers.hpp:35-38 | the receiver becomes the old cursor's successor |
| RangeIterators.RangeIterator.PostIncrement | include/ez/iterator/intern/helpers.hpp:39-43 | returns the old cursor and moves the receiver one step |
| RangeIterators.RangeIterator.Decrement | include/ez/iterator/intern/helpers.hpp:45-48 | the receiver becomes the old cursor's predecessor |
| RangeIterators.RangeIterator.PostDecrement | include/ez/iterator/intern/helpers.hpp:49-53 | returns the old cursor and moves the receiver one step back |
| RangeIterators.RangeIterator.AddAssign | include/ez/iterator/intern/helpers.hpp:65-68 | the receiver becomes the old `it + val` |
| RangeIterators.RangeIterator.SubAssign | include/ez/iterator/intern/helpers.hpp:69-72 | the receiver becomes the old `it - val` |
| Cursors.MakeReverse | include/ez/iterator/enumerate.hpp:333 | a reverse cursor of the same category refers to the element before its base, and its `++` refers to the element before the base's `--` |
| Enumerate.OffsetPlus | include/ez/iterator/enumerate.hpp:267-272 | `offset + it` is `it + offset`: distance `offset`, index raised by `offset` |
| Enumerate.OffsetMinus | include/ez/iterator/enumerate.hpp:273-278 | `offset - it` is `it - offset`, not a negation: distance `-offset`, index lowered by `offset` |
| Enumerate.StepsAreInverse | include/ez/iterator/enumerate.hpp:117-137 | `++` and `--` move the base cursor and the index together and undo each other |
| Enumerate.RandomAccessLaws | include/ez/iterator/enumerate.hpp:213-241 | `+ n` shifts base and index by the same `n`; `- n` undoes it; `(it + n) - it == n`; `it[n]` is `*(it + n)` |
| Enumerate.ComparisonsIgnoreIndex | include/ez/iterator/enumerate.hpp:243-261 | `==` and `<` do not depend on the index; `<` agrees with the sign of the difference; the other comparisons derive from `<` and `==` |
| Enumerate.EnumerateIterator.constructor | include/ez/iterator/enumerate.hpp:175-178 | the iterator holds the given base cursor and index |
| Enumerate.EnumerateIterator.Increment | include/ez/iterator/enumerate.hpp:191-195 | the base cursor and the index both advance one step |
| Enumerate.EnumerateIterator.PostIncrement | include/ez/iterator/enumerate.hpp:196-200 | returns the old iterator and advances the receiver |
| Enumerate.EnumerateIterator.Decrement | include/ez/iterator/enumerate.hpp:202-206 | the base cursor and the index both step back |
| Enumerate.EnumerateIterator.PostDecrement | include/ez/iterator/enumerate.hpp:207-211 | returns the old iterator and steps the receiver back |
| Enumerate.EnumerateIterator.AddAssign | include/ez/iterator/enumerate.hpp:213-217 | the receiver becomes the old `it + offset` |
| Enumerate.EnumerateIterator.SubAssign | include/ez/iterator/enumerate.hpp:218-222 | the receiver becomes the old `it - offset` |
| Enumerate.Renumerate | include/ez/iterator/enumerate.hpp:364-367 | renumerate needs a bidirectional container, and its range is then well formed |
| Enumerate.IncrementsAdvanceBoth | include/ez/iterator/enumerate.hpp:53-57 | `k` increments move the base cursor `k` steps and add `k` to the index |
| Enumerate.EnumerateTraversal | include/ez/iterator/enumerate.hpp:293-298 | a loop over `enumerate(c)` runs `c.size()` times; its `i`-th pair refers to element `i` with index `i`; an empty container gives no iterations |
| Enumerate.RenumerateTraversalAsWritten | include/ez/iterator/enumerate.hpp:332-337 | a loop over `renumerate(c)` runs `c.size()` times back to front, and pairs element `n-1-i` with index `i` |
| Enumerate.RenumerateIndexMismatch | include/ez/iterator/enumerate.hpp:332-337 | for three elements, the first pair is the last element with index 0 |
| Enumerate.Store | include/ez/iterator/enumerate.hpp:21-24 | assigning through a pair changes the element it refers to and no other |
| Enumerate.StoreAll | include/ez/iterator/enumerate.hpp:21-24 | assigning through a sequence of pairs keeps the container's length |
| Enumerate.StoreAllAt | include/ez/iterator/enumerate.hpp:21-24 | after assigning through pairs, an element holds the new value iff some pair refers to it; otherwise it is unchanged |
| Enumerate.AssignThroughEnumerate | include/ez/iterator/enumerate.hpp:46-51 | assigning `v` through every pair that `enumerate(c)` yields sets every element of `c` to `v` |
| Enumerate.RenumerateTraversal | include/ez/iterator/enumerate.hpp:322-338 | the corrected renumerate runs `c.size()` times; its `i`-th pair is element `n-1-i` with index `n-1-i` |
| Enumerate.CountdownClosedForm | include/ez/iterator/enumerate.hpp:322-338 | in the corrected renumerate, `k` increments move the reverse cursor `k` steps and lower the index by `k` |
| Adapt.OffsetStepLaws | include/ez/iterator/adapt.hpp:43-56 | offset_adaptor's `++` moves by exactly `Inc`, `--` by `-Inc`, and one undoes the other; the inherited `+ n` is not scaled |
| Adapt.OffsetIncrements | include/ez/iterator/adapt.hpp:43-46 | `k` prefix increments move the position by `k * Inc` |
| Adapt.OffsetAdaptor.constructor | include/ez/iterator/adapt.hpp:41 | the inherited constructor places the adaptor at the given integer |
| Adapt.OffsetAdaptor.Increment | include/ez/iterator/adapt.hpp:43-46 | the receiver moves by `Inc` |
| Adapt.OffsetAdaptor.Decrement | include/ez/iterator/adapt.hpp:53-56 | the receiver moves by `-Inc` |
| Adapt.OffsetAdaptor.PostIncrementAsWritten | include/ez/iterator/adapt.hpp:47-51 | returns the cursor one step on and leaves the receiver where it was |
| Adapt.OffsetAdaptor.PostDecrementAsWritten | include/ez/iterator/adapt.hpp:57-61 | returns the cursor one step back and leaves the receiver where it was |
| Adapt.OffsetAdaptor.PostIncrement | include/ez/iterator/adapt.hpp:47-51 | corrected postfix `++`: returns the old cursor and moves the receiver by `Inc` |
| Adapt.OffsetAdaptor.PostDecrement | include/ez/iterator/adapt.hpp:57-61 | corrected postfix `--`: returns the old cursor and moves the receiver by `-Inc` |
| Adapt.OffsetAdaptor.AddAssign | include/ez/iterator/intern/helpers.hpp:65-68 | the inherited `+=` moves by `val`, not by `val * Inc` |
| Adapt.OffsetAdaptor.SubAssign | include/ez/iterator/intern/helpers.hpp:69-72 | the inherited `-=` moves back by `val`, not by `val * Inc` |
| Adapt.PostIncrementAsWrittenExample | include/ez/iterator/adapt.hpp:47-51 | for an adaptor at 0 with step 2, `it++` as written returns 2 and leaves `it` at 0 |
| Adapt.PostIncrementExample | include/ez/iterator/adapt.hpp:47-51 | for the same adaptor, the corrected `it++` returns 0 and leaves `it` at 2 |
| Adapt.FunctorIncrements | include/ez/iterator/adapt.hpp:65-85 | functor_adaptor takes its movement from the cursor it wraps: `k` increments walk that cursor `k` steps |
| Adapt.LambdaIncrements | include/ez/iterator/adapt.hpp:88-113 | lambda_adaptor takes its movement from the cursor it wraps and keeps its function pointer while it moves |
| Adapt.AdaptorPlusSlices | include/ez/iterator/adapt.hpp:64-141 | neither adaptor declares `operator+`, so `a + n` is the wrapped cursor's: it lands where `n` increments of the adaptor land, but as the plain cursor, without the function. At that slot the adaptor dereferences to `functor(c[slot])`, while `*(a + n)` is the raw `c[slot]` |
| Adapt.AdaptIteratorTraversal | include/ez/iterator/adapt.hpp:143-147 | `adapt<Functor>(it)` on an iterator: after `k` increments the adaptor wraps `it` walked `k` steps and dereferences to `Functor{}` of that element |
| Adapt.AdaptIteratorWithTraversal | include/ez/iterator/adapt.hpp:157-161 | `adapt(it, func)` on an iterator: after `k` increments the adaptor still holds `func`, wraps `it` walked `k` steps and dereferences to `func` of that element |
| Adapt.AdaptContainerTraversal | include/ez/iterator/adapt.hpp:143-155 | a loop over `adapt<Functor>(obj)` runs `obj.size()` times; its `i`-th dereference is `Functor{}(obj[i])`; with random access, `end - begin` is the size |
| Adapt.AdaptContainerWithTraversal | include/ez/iterator/adapt.hpp:157-169 | a loop over `adapt(obj, func)` runs `obj.size()` times; the end cursor has no function; every cursor the loop dereferences has one, and the `i`-th dereference is `func(obj[i])` |
| Adapt.DerefAdaptorAliases | include/ez/iterator/adapt.hpp:26-34 | adapting pointers with Deref: `end - begin` is the pointer count; the `i`-th dereference is the object `values[i]` points to, and assigning through it changes that object and no other |
| Adapt.LambdaReferenceAliases | include/ez/iterator/adapt.hpp:115-138 | adapting pointers with a function that returns a reference: at the `i`-th cursor `*it` is the object `values[i]` points to and `it->` its address; a write through `it->` is what `*it` then reads, and no other object changes |
| StaticRanges.IntType.Wrap | include/ez/iterator/intern/static_range.hpp:46 | converting to `T` always yields a value of `T`, congruent to the input modulo 2 to the width of `T`, and keeps a value of `T` unchanged |
| StaticRanges.StaticRangeAsWritten | include/ez/iterator/intern/static_range.hpp:10-62 | an accepted range starts at Start, keeps Inc, has Inc non-zero, Start before SuggestEnd in Inc's direction, and End in `T`; for a positive Inc, End is `SuggestEnd + (SuggestEnd - Start) % Inc`, at or above SuggestEnd and less than one step past it; for a negative Inc, End is `SuggestEnd - (Start - SuggestEnd) % -Inc` converted to `T`; a zero Inc and the wrong order are rejected with their own messages; an ordered range whose guard operands overflow (`GuardCompiles` fails) is not a constant expression; otherwise, for a positive Inc it is accepted iff `SuggestEnd + (SuggestEnd - Start) % Inc` fits in `T` (else it overflows), and for a negative Inc iff `Start - min` is at least `(Start - SuggestEnd) % -Inc` and `SuggestEnd` minus that remainder is a constant expression (a smaller room is the underflow message) |
| StaticRanges.StaticRangeOf | include/ez/iterator/intern/static_range.hpp:10-62 | accepted iff Inc is non-zero, Start lies before SuggestEnd in Inc's direction, and the snapped End fits in `T`; End is then a whole number of steps from Start, at or beyond SuggestEnd and less than one step past it; a zero Inc or the wrong order is rejected with its own message |
| StaticRanges.PadRoundsUp | include/ez/iterator/intern/static_range.hpp:18-19 | the padding is less than one step, and makes the distance the least multiple of the step that is at least the distance |
| StaticRanges.SnappedEndIsExact | include/ez/iterator/intern/static_range.hpp:18-19 | the snapped End is a whole number of steps from Start, and lies at or beyond SuggestEnd by less than one step, in either direction |
| StaticRanges.ExactRangeTraversal | include/ez/iterator/intern/static_range.hpp:30-35 | when End is `n` steps from Start, the loop from `begin()` to `end()` runs exactly `n` times and its `k`-th value is `Start + k*Inc` |
| StaticRanges.StaticRangeTraversal | include/ez/iterator/intern/static_range.hpp:10-62 | every range the corrected static_range accepts covers its suggested range (`Covers`): its loop runs ⌈distance/step⌉ times and yields `Start + k*Inc`, every value between Start and SuggestEnd |
| StaticRanges.AsWrittenEndExactIff | include/ez/iterator/intern/static_range.hpp:19 | End as written is a whole number of steps from Start iff the remainder of the distance is 0 or exactly half a step |
| StaticRanges.AsWrittenExactIff | include/ez/iterator/intern/static_range.hpp:16-19 | for a positive Inc, the range as written is a whole number of steps long iff the remainder of the distance is 0 or exactly half a step |
| StaticRanges.AsWrittenMissesEnd | include/ez/iterator/intern/static_range.hpp:19 | `static_range<ptrdiff_t, 0, 10, 3>` as written has End 11, and its loop never stops |
| StaticRanges.AsWrittenMissesEndDescending | include/ez/iterator/intern/static_range.hpp:46 | `static_range<ptrdiff_t, -1, -11, -3>` as written has End -12, and its loop never stops |
| StaticRanges.SnappedEndExamples | include/ez/iterator/intern/static_range.hpp:18-19 | the corrected `(0, 10, 3)` ends at 12 and yields 0, 3, 6, 9; `(-1, -11, -3)` ends at -13 and yields -1, -4, -7, -10 |
| StaticRanges.AsWrittenGuardRejects | include/ez/iterator/intern/static_range.hpp:16-43 | for `ptrdiff_t`, the guards as written reject every ascending range ending below zero and every descending range starting at or above zero: the guard expression itself overflows |
| StaticRanges.GuardExamples | include/ez/iterator/intern/static_range.hpp:43 | the corrected range accepts `(10, 0, -1)` and `(-10, -4, 1)` with End equal to SuggestEnd |
| StaticRanges.AsWrittenEndWraps | include/ez/iterator/intern/static_range.hpp:43-46 | `static_range<int8_t, -125, -128, -2>` as written passes the underflow guard and gets End 127; the corrected range rejects it as overflowing; in `int8_t`, one step down from -127 wraps to 127 |
| Ranges.InferredInc | include/ez/iterator/range.hpp:22 | the inferred step is +1 or -1, positive exactly when End is not below Start |
| Ranges.AsWrittenUnitStep | include/ez/iterator/range.hpp:20-25 | static_range as written with a unit step between distinct bounds is the range ending at End when its guard compiles (`UnitGuardCompiles`), and otherwise not a constant expression |
| Ranges.RangeHelper2 | include/ez/iterator/range.hpp:20-25 | two bounds are accepted iff they differ and, as written, the guard compiles: in `int8_t` and `int16_t` always; in a wider type, going up iff End ≥ 0 and End - Start fits, going down iff Start < 0; an accepted range ends exactly at End, stepping by ±1 towards it; equal bounds are the wrong order |
| Ranges.RangeHelper1 | include/ez/iterator/range.hpp:13-18 | one bound is the two-bound range from 0; accepted iff End is not 0 and, as written in a type at least as wide as int, End is positive |
| Ranges.TsrangeTraversal | include/ez/iterator/range.hpp:27-41 | every accepted `tsrange` (and so `srange`, tsrange over `ptrdiff_t`) has one to three bounds, starts at Start (0 for one bound) with Inc (±1 towards the end for one or two bounds), and, corrected or with a unit step, runs ⌈distance/step⌉ times yielding `Start + k*Inc` |
| Ranges.UnitRangeTraversal | include/ez/iterator/range.hpp:20-25 | an accepted two-bound range runs `|End - Start|` times and yields Start, Start ± 1, … up to but not including End |
| Ranges.OneBoundExample | include/ez/iterator/range.hpp:13-18 | `srange<5>` as written yields 0, 1, 2, 3, 4 |
| Ranges.NegativeBoundAsWritten | include/ez/iterator/range.hpp:13-18 | as written, `srange<-5>` does not compile and `tsrange<int8_t, -5>` is the range from 0 down to -5 |
| Ranges.NegativeBoundCorrected | include/ez/iterator/range.hpp:13-18 | the corrected `srange<-5>` yields 0, -1, -2, -3, -4 |
| Ranges.TwoBoundAsWritten | include/ez/iterator/range.hpp:20-25 | as written, `srange<3, 0>` does not compile and `tsrange<int16_t, 3, 0>` is the range from 3 down to 0 |
| Ranges.TwoBoundCorrected | include/ez/iterator/range.hpp:20-25 | the corrected `srange<3, 0>` yields 3, 2, 1 |
| Ranges.RejectedExamples | include/ez/iterator/range.hpp:10-18 | `srange<0>` is rejected as empty, as written and corrected; `srange<>` has no form |
| Ranges.SteppedExample | include/ez/iterator/range.hpp:27-32 | `srange<0, 10, 2>` as written ends at 10, yields 0, 2, 4, 6, 8 and stops after five iterations |
| Ranges.SteppedCorrected | include/ez/iterator/range.hpp:27-32 | the corrected `srange<0, 10, 2>` is the same range |
| Ranges.DescendingSrangeAsWritten | include/ez/iterator/range.hpp:20-25 | as written, every descending two-bound srange starting at or above zero fails to compile; the corrected range accepts each of them |

## Left out

- Type dispatch is not modelled. This covers `is_iterator`, the `enable_if` selection of a specialisation by iterator category, the `std::is_integral` constraint and the `enable_if` on range_iterator. The three enumerate_iterator specialisations are one datatype, and an operation a weaker category lacks requires the stronger category instead.
- The const variants of enumerate_range and renumerate_range are not modelled. They differ only in holding a `const Container*`. The const renumerate specialisation names `Container::iterator` for a const container. That is a type error, which this value model cannot express.
- Lifetimes are not modelled, for three reasons:
  - enumerate and renumerate hold a pointer to the container.
  - `adapt(obj, func)` takes the container by value, so its cursors point into a copy that is destroyed when `adapt` returns.
  - lambda_adaptor keeps the address of the function argument.
- Enumerate.EnumIter: the index is a `size_t`. Moving it below zero would wrap around, so `Prev`, `Plus`, `Minus` and `At` require the index to stay non-negative. Stepping back from index 0 means stepping back from `begin()`, which the wrapped cursor does not allow.
- Enumerate.EnumerateIterator.Decrement: the same size_t wrap-around is excluded by `index > 0`. This also applies to PostDecrement, AddAssign and SubAssign.
- The range_iterator difference type is `make_signed<T>`, and the enumerate difference type is `ptrdiff_t`. Overflow of either at run time is not modelled, and iterator positions are unbounded integers. Only the compile-time arithmetic of static_range is evaluated in `T`.
- Unsigned `T` is not modelled. The static_assert arithmetic would then be unsigned and wrap silently instead of failing to compile.
- The lambda_adaptor end cursor has a null function pointer. Dereferencing it is undefined, and `Deref` and `Arrow` require a function.
- RangeIterators.PlusLeft: the free `operator+(T val, const range_iterator<T>&)` at helpers.hpp:102-105 evaluates `*iter` on a const reference, but `operator*` (helpers.hpp:31) is not const, so every use of `val + it` fails to compile. PlusLeft models the operator as evidently meant.
- Adapt.LambdaAdaptor.Arrow: a reference is encoded as the address it refers to, so `->` and `*` return the same `R` and Arrow's contract only says so; what the two operators share is stated by `LambdaReferenceAliases`.
- StaticRanges.AsWrittenMissesEnd: iterator positions are unbounded, so "never stops" is about the mathematical loop. In the program the `ptrdiff_t` index overflows, which is undefined behaviour, after about 2^63 / |Inc| steps. The same holds for `AsWrittenMissesEndDescending`.
- StaticRanges.AsWrittenExactIff: stated for a positive Inc only; the negative case has the same remainder arithmetic but its End is also converted to `T`.
- functor_adaptor's `operator->` passes `Iter::operator->()`, a pointer, to the functor. It is not modelled: no container here exposes addresses beyond the Deref example.
- The default constructors are not modelled: their base cursor is a default-constructed iterator that refers to nothing. The defaulted copy constructors, destructors and assignments are value copies, which datatypes give for free.
- The floating-point and run-time `range` of the library's other headers is not part of this model. Neither are the `deref_functor`/`deref_adaptor` names that the library's adapt test uses, which `adapt.hpp` does not define; `DerefFunctor` models `intern::Deref`.
- The element type of a container is a type parameter. Its values are never inspected beyond identity and assignment.

## Findings

| source | as written | input that shows it | evidently intended | confidence | as-written member | corrected member |
|---|---|---|---|---|---|---|
| include/ez/iterator/intern/static_range.hpp:19 | End is `SuggestEnd + (SuggestEnd - Start) % Inc`, a whole number of steps from Start only when the remainder is 0 or half a step | `static_range<ptrdiff_t, 0, 10, 3>`: End is 11, the loop yields 0, 3, 6, 9, 12, … and never stops | End rounded up to the next multiple, `SuggestEnd + (Inc - (SuggestEnd - Start) % Inc) % Inc`, here 12, as the comment on line 18 says | not executed | StaticRanges.AsWrittenMissesEnd | StaticRanges.SnappedEndIsExact |
| include/ez/iterator/intern/static_range.hpp:46 | End is `SuggestEnd - (Start - SuggestEnd) % -Inc`, with the same fault for a negative step | `static_range<ptrdiff_t, -1, -11, -3>`: End is -12, the loop yields -1, -4, -7, -10, -13, … and never meets it | End -13, the next multiple below SuggestEnd | not executed | StaticRanges.AsWrittenMissesEndDescending | StaticRanges.StaticRangeTraversal |
| include/ez/iterator/intern/static_range.hpp:16 | the overflow guards compute `max - SuggestEnd` and `Start - min` in `T`, where they overflow | `srange<10, 0>` (Start 10, Inc -1): `10 - PTRDIFF_MIN` overflows, so the static_assert is not a constant expression and the program does not compile; likewise `srange<-10, -4>` | the guards check that End fits in `T` without themselves overflowing, so these ranges compile | not executed | StaticRanges.AsWrittenGuardRejects | StaticRanges.GuardExamples |
| include/ez/iterator/intern/static_range.hpp:43 | the underflow guard measures the room below Start, but End lies below SuggestEnd | `static_range<int8_t, -125, -128, -2>`: the guard passes, End is -129, stored in `int8_t` as 127 | the guard measures the room below SuggestEnd, and the range is rejected | not executed | StaticRanges.AsWrittenEndWraps | StaticRanges.StaticRangeOf |
| include/ez/iterator/enumerate.hpp:332-337 | renumerate's begin has index 0 and its end `size()`, so the index counts up while the elements go back to front | three elements x, y, z: the first pair is z with index 0 | index `size() - 1` counting down to 0, so each element comes with its own position, as test/enumerations.cpp:44-55 expects | not executed | Enumerate.RenumerateIndexMismatch | Enumerate.RenumerateTraversal |
| include/ez/iterator/adapt.hpp:47-51 | postfix `++` steps a copy and returns it; the receiver does not move (lines 57-61 do the same for `--`) | an adaptor at 0 with step 2: `it++` returns the cursor at 2 and `it` stays at 0 | return the old cursor and move the receiver, as the prefix form and range_iterator's postfix do | not executed | Adapt.PostIncrementAsWrittenExample | Adapt.PostIncrementExample |
