# C++ course exercises, modelled in Dafny

This project models an exercise collection from a C++ course and proves
properties of the model. It covers four parts:

- `assignment/function.hpp` — a type-erased `Function<R(Args...)>` with
  placeholder binding (`_`, `_1`, `_2`, …) and two kinds of composition.
  - A Function is modelled as an arity plus an optional partial Dafny function
    value (`pf_`, empty when moved-from).
  - Placeholders are the `PH` case of a bind argument; `_` is `PH(0)`.
  - `makeBinder` is the `Binder` datatype constructor.
  - A thrown `std::runtime_error` is an `Err` result.
  - Rejections that the C++ compiler makes are modelled as follows:
    - mixing `_` with numbered placeholders becomes the `MixedPlaceholders` error value;
    - arity and placeholder-range checks become preconditions.
- `hw1.cpp` — a `Date` class that counts days from 1970/1/1.
  - `makeFromTimestamp` and the compound assignments update the fields in place.
  - The reference functions `Days` and `FromTimestamp` specify `daysFromEpoch` and `makeFromTimestamp`.
- `hw3.cpp` — a vector that grows by doubling, with copy construction, assignment and an index-based `safe_skip_iterator`.
  - The vector is a class over an `array?`.
  - Which elements the vector holds is stated as `Elements()`.
- `hw2/main5.cpp`, `main3.cpp`, `main2.cpp` and `main1.cpp` — successive versions of a vector whose capacity is rounded up with `next_pow2`.
  - `next_pow2` is modelled bit-exactly (`1 << (32 - countl_zero(unsigned(x - 1)))`) and proved to be the least power of two ≥ x.
  - Each version is its own class.
  - Elements are `int`, so `T{}` is 0.

The fill and copy loops that all the vectors share are in `buffers.dfy`.

## Model

| member | source | states |
|---|---|---|
| Functional.Invoke | assignment/function.hpp:26-28 | Callable::invoke: the stored callable applied to the arguments |
| Functional.FromCallable | assignment/function.hpp:107-113 | the Function keeps the callable with the signature's arity and is callable on every argument list of that length |
| Functional.Lift | assignment/function.hpp:17-32 | wrapping a plain, non-throwing callable gives a non-empty, well-formed Function of the given arity |
| Functional.Empty | assignment/function.hpp:139 | a moved-from Function has no callable |
| Functional.Call | assignment/function.hpp:115-120 | calling an empty Function yields the "Call to an empty Function!" runtime error |
| Functional.CallLifted | assignment/function.hpp:24-28 | wrapping is transparent: a call returns exactly the wrapped callable's result on the same arguments |
| Functional.CallEmpty | assignment/function.hpp:115-118 | an empty Function never yields a value, for any signature and arguments |
| Functional.Translate | assignment/function.hpp:82-101 | succeeds iff no numbered placeholder is present; length kept; values stay in place; the k-th `_` becomes `PH(next + k)`; every result index is in `[next, next + count of _)` |
| Functional.Bind | assignment/function.hpp:122-136 | does not call; returns a Binder over the same Function and a list of the same length. `_` placeholders are renumbered 1, 2, …, in order. A numbered-only list is kept verbatim. Mixing `_` with numbered placeholders fails with `MixedPlaceholders`, both directions stated |
| Functional.TranslateNumbersGeneric | assignment/function.hpp:82-101 | renumbering from 1 leaves no `PlaceHolder<0>` and stays within 1..count of `_` |
| Functional.BindNumberedVerbatim | assignment/function.hpp:128-135 | a placeholder list without `_` is bound verbatim; any mix is rejected |
| Functional.MapArg | assignment/function.hpp:154-163 | a bound value maps to itself and `PlaceHolder<i>` to call argument i, counted from 1 |
| Functional.Substitute | assignment/function.hpp:154-163 | slot j is the bound value for a value slot and call argument i (1-based) for `PH(i)`; slot order and count are kept |
| Functional.BinderCall | assignment/function.hpp:171-181 | Binder::operator(): the bound Function called on the substituted slots (CallBinder states this for the wrapped Binder) |
| Functional.FromBinder | assignment/function.hpp:184-188 | a ready Binder wrapped as a Function is non-empty and well formed with the declared arity |
| Functional.CallBinder | assignment/function.hpp:171-181 | calling a bound Function calls the original Function on the slot-by-slot `ArgMap::map` of the call arguments |
| Functional.CallBoundLifted | assignment/function.hpp:122-181 | binding a plain callable then calling equals calling the callable on the substituted slots |
| Functional.ComposeArgs | assignment/function.hpp:150-163 | the composed slot list keeps outer values and replaces each outer placeholder by the inner slot it names |
| Functional.SubstituteTwice | assignment/function.hpp:177-181 | substituting through two slot lists equals substituting once through their composition |
| Functional.CallRebound | assignment/function.hpp:105-136 | re-binding a wrapped Binder numbers placeholders over the new call only and bakes the earlier bindings in |
| Functional.Chain | assignment/function.hpp:193-195 | the composing lambda: an error from rhs is passed on, otherwise lhs is called on rhs's value (CallCompose states this of Compose) |
| Functional.Compose | assignment/function.hpp:190-196 | `lhs * rhs` has rhs's arity and is non-empty |
| Functional.CallCompose | assignment/function.hpp:193-195 | `(lhs * rhs)(args) == lhs(rhs(args))`; an error from rhs is passed on without calling lhs |
| Functional.CallComposeLifted | assignment/function.hpp:190-196 | composing two wrapped callables is their composition as functions |
| Functional.Apply | assignment/function.hpp:198-201 | calls f with the tuple's elements as its arguments, in order |
| Functional.ChainSpread | assignment/function.hpp:206-209 | the spreading lambda: an error from rhs is passed on, otherwise its tuple is spread over lhs (CallComposeSpread states this of ComposeSpread) |
| Functional.ComposeSpread | assignment/function.hpp:203-210 | the spreading `lhs * rhs` has rhs's arity and is non-empty |
| Functional.CallComposeSpread | assignment/function.hpp:198-210 | `(lhs * rhs)(args)` is lhs applied to the elements of the tuple `rhs(args)`, in order; errors pass through |
| FunctionalExamples.BindValueThenGeneric | assignment/main.cpp:69-72 | `minus(42, _)` binds to `[42, _1]`, and calling it with 20 gives 22 |
| FunctionalExamples.BindGenericThenValue | assignment/main.cpp:70-73 | `minus(_, 42)` binds to `[_1, 42]`, and calling it with 56 gives 14 |
| FunctionalExamples.BindTwoGeneric | assignment/main.cpp:71-74 | `minus(_, _)` binds to `[_1, _2]`, and calling it with (50, 15) gives 35 |
| FunctionalExamples.BindReordered | assignment/main.cpp:84-86 | `less(_2, _1)` is kept verbatim, and calling it with (5, 3) gives true |
| FunctionalExamples.RebindChainBinders | assignment/main.cpp:92-94 | the three bindings of the sum chain build exactly the expected Binders |
| FunctionalExamples.CallSum3 | assignment/main.cpp:92 | `sum3(x, y, z) == x + 2000 + z + y` |
| FunctionalExamples.CallSum2 | assignment/main.cpp:93 | `sum2(x, y) == 200 + 2000 + x + y` |
| FunctionalExamples.CallSum1 | assignment/main.cpp:94-95 | `sum1(2) == 2222` |
| FunctionalExamples.ComposeSquareAdd | assignment/main.cpp:48-51 | `(square * add)(1, 2) == 9` |
| FunctionalExamples.DivYieldsTriples | assignment/main.cpp:54-55 | div always returns a 3-tuple |
| FunctionalExamples.RenderQuotient | assignment/main.cpp:56-60 | streaming 17, "..." and 4 gives "17...4" |
| FunctionalExamples.CallDiv | assignment/main.cpp:54-55 | `div(123, 7)` is `(17, "...", 4)` |
| FunctionalExamples.ComposeSpreadDiv | assignment/main.cpp:61 | `(toString * div)(123, 7) == "17...4"` |
| Calendar.IsLeap | hw1.cpp:3-5 | the Gregorian rule: divisible by 4 and not by 100, or divisible by 400 (its consequences are stated by DaysInYear and DaysInMonth) |
| Calendar.DaysInYear | hw1.cpp:7-9 | the year has 366 days exactly when the Gregorian leap rule holds, else 365 |
| Calendar.DaysInMonth | hw1.cpp:11-14 | months 1..12 have 28..31 days; every month but February has its table value; February has 29 days in a leap year and 28 otherwise |
| Calendar.YearOfMonths | hw1.cpp:11-14 | the twelve month lengths of a year add up to its length |
| Calendar.MonthsFillYear | hw1.cpp:11-14 | the months before m plus the months from m on make up the year |
| Calendar.SplitYears | hw1.cpp:34-37 | stripping whole years keeps the day count, ends with a remainder below that year's length, and is non-negative for a non-negative start |
| Calendar.SplitMonths | hw1.cpp:38-41 | stripping whole months keeps the day count and ends inside a month 1..12 |
| Calendar.Days | hw1.cpp:18-28 | the reference day count of a date: days of the years from 1970, of the months before, and day - 1; DaysFromEpoch is proved to return it and RoundTrip, DaysInjective and EpochOffsets are stated over it |
| Calendar.FromTimestamp | hw1.cpp:30-43 | a negative timestamp gives 1970/1/(1 + t), as the loops do |
| Calendar.FromTimestampCorrect | hw1.cpp:30-43 | for t ≥ 0 the result is a valid date whose day count is t |
| Calendar.EpochIsZero | hw1.cpp:18-28 | 1970/1/1 counts 0 and timestamp 0 gives 1970/1/1 |
| Calendar.DaysBeforeYearMonotone | hw1.cpp:20-22 | the days before a later year are never fewer |
| Calendar.DaysBeforeMonthMonotone | hw1.cpp:23-25 | the days before a later month are never fewer |
| Calendar.DayOfYearBounds | hw1.cpp:23-26 | a valid date's day of the year lies in 0 .. days of the year − 1 |
| Calendar.DaysNonNegative | hw1.cpp:18-28 | a valid date from 1970 on counts at least 0 |
| Calendar.DaysInjective | hw1.cpp:18-28 | two valid dates with the same count are equal |
| Calendar.RoundTrip | hw1.cpp:60-64 | `makeFromTimestamp(daysFromEpoch(d)) == d` for every valid date |
| Calendar.EpochOffsets | hw1.cpp:122-138 | `epoch + (c - epoch) == c` and `c - (c - epoch) == epoch` |
| Calendar.PlusThenDifference | hw1.cpp:56-64 | `(d + n) - d == n` whenever d + n is not before the epoch, and `d - d == 0` |
| Calendar.WeekDayOf | hw1.cpp:50-52 | the reference weekday of a day count, C++ `(4 + t) % 7`; WeekDayCycle states its range, epoch value and period |
| Calendar.TruncRem | hw1.cpp:51 | C++ `%`: the dividend is the truncated quotient times the divisor plus the remainder; the remainder has the sign of the dividend and magnitude below the divisor |
| Calendar.WeekDayCycle | hw1.cpp:50-52 | weekDay is in 0..6 from the epoch on, is 4 at the epoch and repeats every 7 days |
| Calendar.Date.constructor | hw1.cpp:54 | the fields are the given year, month and day |
| Calendar.Date.DaysFromEpoch | hw1.cpp:18-28 | the two loops return `Days` of the date |
| Calendar.Date.YearsFromEpoch | hw1.cpp:20-22 | the year loop adds up to the days of the years 1970 .. year - 1 |
| Calendar.Date.MonthsFromNewYear | hw1.cpp:23-25 | the month loop adds up to the days of the months 1 .. month - 1 of the year |
| Calendar.Date.MakeFromTimestamp | hw1.cpp:30-43 | the fields become `FromTimestamp(timestamp)` |
| Calendar.Date.StripYears | hw1.cpp:34-37 | the year loop leaves the year and the remaining days that `SplitYears` gives from 1970 |
| Calendar.Date.StripMonths | hw1.cpp:38-41 | the month loop leaves the month and the remaining days that `SplitMonths` gives from January |
| Calendar.Date.WeekDay | hw1.cpp:50-52 | the C++ remainder of 4 + the day count by 7, which is in 0..6 for a valid date |
| Calendar.Date.Difference | hw1.cpp:56-58 | the difference of the two day counts |
| Calendar.Date.Plus | hw1.cpp:60-64 | a new date, `duration` days later, with this date unchanged |
| Calendar.Date.Minus | hw1.cpp:66-68 | equals `*this + -duration` |
| Calendar.Date.PlusAssign | hw1.cpp:70-72 | this date becomes `*this + duration` and is returned |
| Calendar.Date.MinusAssign | hw1.cpp:74-76 | this date becomes `*this - duration` and is returned |
| Calendar.PlusDate | hw1.cpp:79-81 | `n + d` is the same date as `d + n` |
| Calendar.ChainedAssignments | hw1.cpp:146-156 | `a += 100; a -= 50; (a -= 25) -= 25` updates a itself and brings it back to where it began |
| Buffers.NewFilled | hw2/main5.cpp:25-28 | a fresh buffer of n slots, each holding the value |
| Buffers.NewCopy | hw3.cpp:176-179 | a fresh buffer whose first n slots equal the source's |
| DoublingVector.EveryOther | hw3.cpp:27-36 | the elements at indices 0, 2, 4, …, in order, (size + 1) / 2 of them |
| DoublingVector.GrownCapacity | hw3.cpp:174-175 | the larger of twice the capacity and the new size |
| DoublingVector.Vector.constructor | hw3.cpp:89-94 | no storage, size = capacity = 0, no elements |
| DoublingVector.Vector.Sized | hw3.cpp:96-101 | size = capacity = the given size, fresh storage |
| DoublingVector.Vector.Filled | hw3.cpp:103-111 | size = capacity = the given size, every element equal to the value |
| DoublingVector.Vector.Copy | hw3.cpp:118-132 | the same elements, with capacity = size; fresh storage, or null storage for an empty source |
| DoublingVector.Vector.Assign | hw3.cpp:134-150 | the target gets the source's elements with capacity = size; the source is unchanged; `*this` is returned |
| DoublingVector.Vector.Get | hw3.cpp:152-155 | element index |
| DoublingVector.Vector.Set | hw3.cpp:157-160 | only element index changes |
| DoublingVector.Vector.Size | hw3.cpp:162-165 | the number of elements |
| DoublingVector.Vector.PushBack | hw3.cpp:167-185 | appends e and keeps every earlier element. With spare room it stays in place with the same capacity, otherwise capacity becomes max(2 · capacity, size + 1). size ≤ capacity is kept |
| DoublingVector.Vector.PopBack | hw3.cpp:187-190 | does nothing on an empty vector; otherwise drops the last element and keeps the rest, the storage and the capacity |
| DoublingVector.Vector.SsBegin | hw3.cpp:63-65 | an iterator over this vector at index 0 |
| DoublingVector.Vector.SsEnd | hw3.cpp:67-69 | an iterator at `size + size % 2`, which is even and at most size + 1 |
| DoublingVector.SafeSkipIterator.constructor | hw3.cpp:23-25 | holds the target and the index |
| DoublingVector.SafeSkipIterator.Equals | hw3.cpp:27-29 | two iterators are equal exactly when their indices are, whatever their targets |
| DoublingVector.SafeSkipIterator.Next | hw3.cpp:30-33 | `++` advances the index by 2 and returns the iterator itself |
| DoublingVector.SafeSkipIterator.Get | hw3.cpp:34-36 | `*` is the target's element at the index |
| DoublingVector.SkipTraverse | hw3.cpp:27-36 | iterating from ssbegin to ssend visits exactly the elements at indices 0, 2, 4, … |
| DoublingVector.SkipWhileReassigning | hw3.cpp:264-270 | re-assigning an equal copy inside the loop changes neither the vector nor the elements visited |
| DoublingVector.Refill | hw3.cpp:275-276 | five pushes followed by five pops leave the elements as they were |
| DoublingVector.SkipWhileRefilling | hw3.cpp:272-279 | pushing and popping inside the loop does not disturb the index-based iteration |
| DoublingVector.CountingVector | hw3.cpp:195-200 | five pushes give `[1, 2, 3, 4, 5]` |
| DoublingVector.DigitVector | hw3.cpp:196-205 | six pushes give `["1", …, "6"]` |
| DoublingVector.SafeSkipDriver | hw3.cpp:262-279 | both safe-skip loops of the driver visit `1 3 5` |
| DoublingVector.SkipFiveAndSix | hw3.cpp:266-279 | sizes 5 and 6 both give the elements 1, 3, 5 |
| Pow2.CountlZero | hw2/main5.cpp:12 | `countl_zero` of a 32-bit unsigned value is in 0..32 and is 32 exactly for 0; for a non-zero u it is the r with 2^(31 - r) ≤ u < 2^(32 - r) |
| Pow2.ShiftAmount | hw2/main5.cpp:11-12 | the shift amount is in 0..32, and for x ≥ 1 it is the number of binary digits of x - 1 |
| Pow2.NextPow2 | hw2/main5.cpp:7-13 | for 1 ≤ x ≤ 2^30: a power of two, at least x, and less than 2x |
| Pow2.NextPow2IsLeast | hw2/main5.cpp:7-13 | no power of two that is at least x is smaller than `next_pow2(x)` |
| Pow2.NextPow2OfPow2 | hw2/main5.cpp:10-12 | `next_pow2` of a power of two is that power |
| Pow2.NonPositiveShiftsByWidth | hw2/main1.cpp:5-11 | for x ≤ 0 the shift amount is the full width, 32 |
| VectorV5.PathOf | hw2/main5.cpp:72-90 | push_back allocates iff there is no capacity, grows iff full, and otherwise writes in place |
| VectorV5.Vector.constructor | hw2/main5.cpp:19 | null storage, capacity 0 and size 0 |
| VectorV5.Vector.Sized | hw2/main5.cpp:20 | like `Vector(size, 0)` |
| VectorV5.Vector.Filled | hw2/main5.cpp:21-33 | keeps size. For size > 0: capacity `next_pow2(size)`, every slot holding the value. Otherwise capacity 0 and null storage |
| VectorV5.Vector.Copy | hw2/main5.cpp:34-45 | the same size, capacity and every slot, in fresh storage |
| VectorV5.Vector.Move | hw2/main5.cpp:46-48 | takes the source's storage, capacity and size and leaves the source empty |
| VectorV5.Vector.Swap | hw2/main5.cpp:102-106 | exchanges storage, capacity and size |
| VectorV5.Vector.Assign | hw2/main5.cpp:53-57 | the target gets the source's size, capacity and slots; the source is unchanged; self-assignment is safe |
| VectorV5.Vector.Get | hw2/main5.cpp:63-69 | slot index, which is element index below size |
| VectorV5.Vector.Set | hw2/main5.cpp:63-69 | only slot index changes |
| VectorV5.Vector.Size | hw2/main5.cpp:59-61 | the stored size |
| VectorV5.Vector.PushBack | hw2/main5.cpp:71-91 | appends e and keeps the prefix. Capacity 0 gives size = capacity = 1; a full vector grows to `next_pow2(size + 1)`; otherwise it stays in place. The representation invariant is kept |
| VectorV5.Vector.PopBackAsWritten | hw2/main5.cpp:93-100 | the code as written: at size 0 the storage becomes null while the capacity is kept |
| VectorV5.Vector.PopBack | hw2/main5.cpp:93-100 | the repaired pop_back: a no-op when empty; otherwise drops the last element; when it frees the storage it also resets the capacity, so the invariant is kept |
| VectorV5.PopThenPushAsWritten | hw2/main5.cpp:87-100 | after one push and an as-written pop, the storage is null, capacity is 1, and the next push_back takes the in-place branch |
| VectorV5.PopThenPush | hw2/main5.cpp:72-74 | with the repaired pop_back, the next push_back allocates |
| VectorV5.BuildPair | hw2/main5.cpp:115-120 | b holds `[1, 1, 2, 2, 3, 3, 4, 4, 5, 5]` |
| VectorV5.Driver | hw2/main5.cpp:114-127 | after `a = b` and five pushes, a prints `1 1 2 2 3 3 4 4 5 5 1 2 3 4 5` |
| VectorV3.Vector.constructor | hw2/main3.cpp:19 | null storage, capacity 0 and size 0 |
| VectorV3.Vector.Sized | hw2/main3.cpp:20 | like `Vector(size, 0)` |
| VectorV3.Vector.Filled | hw2/main3.cpp:21-33 | keeps size. For size > 0: capacity `next_pow2(size)`, all slots holding the value. Otherwise no storage |
| VectorV3.Vector.Copy | hw2/main3.cpp:34-45 | copies size, capacity and every slot; a source with no capacity gives null storage |
| VectorV3.Vector.Move | hw2/main3.cpp:46-48 | the source is left with null storage and size = capacity = 0 |
| VectorV3.Vector.Swap | hw2/main3.cpp:59-63 | exchanges all three fields |
| VectorV3.Vector.Assign | hw2/main3.cpp:53-57 | copy-and-swap makes the target equal to the source and leaves the source unchanged |
| VectorV3.EightFromFive | hw2/main3.cpp:7-13 | `next_pow2(5) == 8` and `next_pow2(10) == 16` |
| VectorV3.Driver | hw2/main3.cpp:71-77 | after `a = c` and `e = (a = d)`, a and e both have c's size 5, capacity 8 and slots |
| VectorV2.Vector.constructor | hw2/main2.cpp:18 | null storage, capacity 0 and size 0 |
| VectorV2.Vector.Sized | hw2/main2.cpp:19 | like `Vector(size, 0)` |
| VectorV2.Vector.Filled | hw2/main2.cpp:20-32 | for size > 0, capacity `next_pow2(size)` ≥ size with every slot holding the value; for size ≤ 0, capacity 0 |
| VectorV2.Vector.Copy | hw2/main2.cpp:33-44 | the same size, capacity and slots, in storage of its own |
| VectorV2.SixteenFromTen | hw2/main2.cpp:6-12 | `next_pow2(10) == 16` |
| VectorV2.Driver | hw2/main2.cpp:55-62 | `b(a)` copies a's 16 slots into distinct storage; copies of an empty vector have null storage |
| VectorV1.Vector.constructor | hw2/main1.cpp:17 | null storage, capacity 0 and size 0 |
| VectorV1.Vector.Sized | hw2/main1.cpp:18 | like `Vector(size, 0)` |
| VectorV1.Vector.Filled | hw2/main1.cpp:19-26 | keeps size, capacity `next_pow2(size)` ≥ size, and every slot holds the value |
| VectorV1.Driver | hw2/main1.cpp:37-41 | the default, sized and filled vectors of the driver: capacities 0, 16 and 16 |

## Left out

- `polymorphic_value.h` is not part of this model. The virtual `ICallable` dispatch is modelled as an optional Dafny function value.
- A Function's parameters all have one type `V`. The heterogeneous `expr(_, '+', _)` test (assignment/main.cpp:77-81) is therefore left out, and `div`/`toString` use a small `Piece` datatype for their elements.
- The compile-time checks are modelled as preconditions:
  - the arity `static_assert`;
  - `convertible_to`;
  - `phIdx != 0`, as `Indexed`;
  - the `requires` that picks an overload.
- `Functional.Bind`: a bound value `Val(v)` is a copy taken at bind time. In the source, the numbered-only path stores its arguments as `std::tuple<BindArgs...>` (assignment/function.hpp:133-134) with `BindArgs` a forwarding reference, so an lvalue argument is kept by reference in `Binder::args_` and a later change to that variable shows in the call; the generic path (assignment/function.hpp:98) copies. The model has no mutable variables for such a reference to alias.
- `FunctionalExamples.Div`: takes positive operands only, the range in which Dafny's Euclidean `/` and `%` agree with C++'s truncating ones; the test divides positive numbers.
- Forwarding, move semantics, the move-only and reference-parameter tests (assignment/main.cpp:9-44): these are C++ value categories and have no counterpart here.
- All `main` output, `operator<<` and `std::cout`: these are I/O. The drivers are modelled only as scenario methods whose `ensures` give the values printed.
- hw3.cpp `begin`/`end`, `rbegin`/`rend` and `sbegin`/`send`: raw pointers, `std::reverse_iterator` and `std::views::stride` are library iterators.
- `delete[]` and the destructors: memory is garbage collected here. Freeing the storage is modelled as dropping the reference.
- `DoublingVector.Vector.Assign`: requires `other != this`. With self-assignment, hw3.cpp:136 frees the buffer and then reads from it, which has no defined result to model.
- `DoublingVector.Vector.Sized` and `DoublingVector.Vector.Filled`: require size ≥ 0, because `new T[size]` throws for a negative size.
- `DoublingVector.SafeSkipIterator.Get`: requires the index to be below size, which is where the slot holds a live element.
- `Calendar.Date.DaysFromEpoch`: requires month ≤ 13 so that `NUM_DAYS[m]` stays inside the table. 32-bit overflow of the day count is not modelled, because it needs dates millions of years past 1970.
- Dates before 1970 and months or days outside their range are modelled as the loops treat them, including a negative timestamp giving day 1 + t. The round-trip lemmas are stated for valid dates from 1970 on.
- `DoublingVector.Vector.PushBack`: capacity and size are unbounded integers, so the 32-bit overflow of `m_capacity * 2` once the capacity reaches 2^30, and of `++m_size` (hw3.cpp:173-174), is not modelled.
- `Pow2.NextPow2`: requires x ≤ 2^30, so that `1 << 31` and beyond, which overflow a 32-bit int, are excluded.
- `VectorV5.Vector.PushBack`: requires size < 2^30 for the same reason. `VectorV5.Vector.Filled` and the other sized constructors require size ≤ 2^30.
- `VectorV1.Vector.Filled`: requires size ≥ 1. For size 0, `next_pow2(0)` shifts by the full width (see Findings); for a negative size, its assumption fails.
- Elements of the hw2 vectors are `int`. The drivers' `std::string` and `double` elements become ints.

## Findings

| source | as written | input that shows it | evidently intended | confidence | as-written member | corrected member |
|---|---|---|---|---|---|---|
| hw2/main5.cpp:96-99 | pop_back frees and nulls `m_data` when the size reaches 0 but keeps `m_capacity` | `push_back(7); pop_back(); push_back(x)`: the capacity is 1, the size 0 and the storage null, so push_back takes the in-place branch and writes through null at hw2/main5.cpp:88 | reset `m_capacity` to 0 together with the storage | not executed | VectorV5.PopThenPushAsWritten | VectorV5.Vector.PopBack |
| hw2/main1.cpp:7 | `next_pow2` assumes only `x >= 0` | `next_pow2(0)`: `unsigned(-1)` has no leading zero, so the shift is `1 << 32`, which is undefined for a 32-bit int | assume `x > 0`, as the later versions do | not executed | Pow2.NonPositiveShiftsByWidth | Pow2.NextPow2 |
