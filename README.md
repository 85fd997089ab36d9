# cythrust core, modelled in Dafny

cythrust wraps Thrust for use from Python. This project models its core logic and proves properties of it:

- `DeviceDataFrame`, the Python container of device vectors. It keeps two parallel ordered dictionaries: column name to device vector, and column name to a window ("view") of that vector.
- The integer functors used as kernel building blocks.
- The component-wise tuple reducers `reduce2pair` and `reduce2` … `reduce9`.
- The argument unpackers.
- The index map of `repeated_range`.
- The integer state machine of the K&R random generator.

Modules, one per source file:

| file | module | source |
|---|---|---|
| `wrappers.dfy` | `Wrappers` | `Option` and `Result`, used for error paths |
| `ordered_dict.dfy` | `OrderedDicts` | Python's `OrderedDict` with string keys, as the frame uses it |
| `device_vector.dfy` | `DeviceVectors` | device vectors (`array<int>`) and views over them |
| `data_frame.dfy` | `DataFrame` | `cythrust/__init__.py` |
| `functional_tuples.dfy` | `FunctionalTuples` | `cythrust/src/functional_tuples.hpp` |
| `unpack_args.dfy` | `UnpackArgs` | `cythrust/src/unpack_args.hpp` |
| `functional.dfy` | `Functional` | `cythrust/src/functional.hpp` |
| `repeated_range.dfy` | `RepeatedRange` | `cythrust/src/repeated_range_iterator.h` |
| `random.dfy` | `UniformRandom` | `cythrust/src/UniformRandomGenerator.hpp` |

## Modelling decisions

- **Frame state is imperative.** The frame's data dictionary is an object of its own, `ColumnStore`. `base()` and `view()` hand that very object to the frame they return, so every derived frame sees the same data. Each frame has its own view dictionary, a value the methods reassign.
- **Vectors and views.** A device vector is an `array<int>`. A view is a value holding the vector reference and the inclusive window `[firstI, lastI]`.
- **The device-vector module.** `cythrust.device_vector` is not part of this model. The model gives it this behaviour:
  - a view whose window does not lie inside its vector is refused with a bounds error;
  - a write of a sequence whose length is not the row count is refused with a shape error;
  - a write to rows outside a view is refused with a bounds error. This one is an assumption of the model: nothing in the frame's code says what the view layer does with such rows.
- **Errors are values.** Every Python exception the core raises (`ValueError`, `KeyError`, `IndexError` from `values()[0]` on an empty dictionary, `AssertionError` from the length assertion) is an `Err` result, with nothing changed past the point where the source raises.
- **Tuples are sequences.** A thrust tuple is a sequence of one element type. A functor reading `get<0>` … `get<N-1>` requires at least N components and ignores the rest.
- **C++ division.** C++ integer division truncates toward zero. `TruncDiv` models it; Dafny's own `/` is Euclidean.
- **The random generator.** `T` is fixed to 32-bit unsigned (`uint32`, a newtype), so the state step wraps modulo 2^32. The mask `& (IM - 1)` is a bitwise and on `bv32`.
- **Behaviour as the code has it.** The model follows the code where it may surprise a reader:
  - A negative end counts from one past the end, so `view(-3, -1)` on ten rows resolves to rows [7, 10), not [7, 9): it is `view(7, 10)`, the last three rows (`DataFrame.LastThreeRows`).
  - `view(start)` with no end sets both `start` and `end` to 0 before anything else, so its window is empty whatever `start` is (`DataFrame.ResolveWindow`).
  - `view` reads `self.size` on every call, so a frame without views raises `IndexError`. The later test `if len(self._view_dict)` therefore always holds.
  - `add` with a name the frame already has replaces that column in place, keeping its position in both dictionaries (`OrderedDicts.OrderedDict.Set`).
  - `add` never compares the new column's length with the others'. A column too short for the first view's window is refused by the view layer with a bounds error, after its vector is stored; a longer one gets a view of that window.
  - A refused `add` of a new name leaves that name with a vector but no view. A refused `add` of an existing name (a replacement) leaves a stale view: the data dictionary holds the new vector while the name's view is still the old view over the old vector. In both cases a consistent frame is no longer consistent (`DataFrame.DeviceDataFrame.Add`).
  - `size` and `index_bounds` read the first view only; nothing checks that the other views agree. They do on an aligned frame (`DataFrame.DeviceDataFrame.AlignedViewsShareBounds`).

## Model

| member | source | states |
|---|---|---|
| DataFrame.DeviceDataFrame.FromDict | cythrust/__init__.py:25-41 | Fails with AssertionError exactly when the arrays do not all have one length (or there are none). Otherwise it gives a fresh frame that is valid, consistent and aligned: every column gets a fresh vector holding a copy of its array and a full-extent view, in the dictionary's order |
| DataFrame.DeviceDataFrame.NewVectors | cythrust/__init__.py:28-29 | One fresh vector per column: a copy of its array, in key order, no two columns sharing a vector |
| DataFrame.SingleSize | cythrust/__init__.py:27 | `len(set(sizes)) == 1` holds exactly when the dictionary is non-empty and all its arrays have one length |
| DataFrame.DeviceDataFrame.Add | cythrust/__init__.py:43-56 | With neither data nor dtype: ValueError, nothing changed. On a frame without data: IndexError. Otherwise the column gets a fresh vector (the data, or zeros of the first vector's length), stored before its view. The view takes the first view's window: IndexError without views, the view layer's bounds error if the window does not fit. On success consistency and alignment are kept; after the bounds error a consistent frame is no longer consistent |
| DataFrame.DeviceDataFrame.StoreColumn | cythrust/__init__.py:52 | The data dictionary gets the column mapped to a fresh vector holding the values |
| DataFrame.DeviceDataFrame.AttachView | cythrust/__init__.py:53-56 | The new view has the window of the first view; without views IndexError; a window outside the vector is refused; equal windows stay equal |
| DataFrame.AddKeepsConsistent | cythrust/__init__.py:52-56 | Setting one name in both dictionaries keeps their key sequences equal and each view over its own column's vector |
| DataFrame.AddKeepsAligned | cythrust/__init__.py:53-56 | A view with the first view's window keeps all windows equal |
| DataFrame.DeviceDataFrame.Drop | cythrust/__init__.py:58-60 | Removes the name from the views and then from the data; KeyError at the first `del` of an absent name; consistent dictionaries remain consistent, and then the drop succeeds exactly when the name is a column |
| DataFrame.DropKeepsConsistent | cythrust/__init__.py:58-60 | Deleting a name from consistent dictionaries leaves them consistent |
| DataFrame.DeviceDataFrame.Base | cythrust/__init__.py:62-68 | A fresh frame over the same data object (no copy), every column with a full-extent view; aligned when the vectors have one length; bounds (0, length of the first vector) |
| DataFrame.FullViews | cythrust/__init__.py:39-41 | Same keys in the same order, each view the full extent of its column's vector; valid when no vectors are shared, aligned when all have one length |
| DataFrame.WindowViews | cythrust/__init__.py:140-143 | Same keys in the same order, every view of its own column's vector with the one given window, so the views are aligned |
| DataFrame.DeviceDataFrame.InBounds | cythrust/__init__.py:110-112 | IndexError exactly without views; otherwise true exactly when firstI <= i <= lastI of the first view |
| DataFrame.DeviceDataFrame.AlignedViewsShareBounds | cythrust/__init__.py:104-108 | On an aligned frame `index_bounds()` and `size` are (firstI, lastI + 1) and the size of every column's view |
| DataFrame.ResolveWindow | cythrust/__init__.py:123-138 | The window of `view(start, end)` never ends past lastI + 1 of the first view; without an end it starts at firstI and is empty |
| DataFrame.DeviceDataFrame.constructor | cythrust/__init__.py:34-35 | `DeviceDataFrame()`: a fresh data dictionary and a view dictionary, both empty |
| DataFrame.DeviceDataFrame.IndexBounds | cythrust/__init__.py:104-108 | IndexError exactly without views; otherwise bounds whose difference is the first view's size, ordered on a valid frame |
| DataFrame.DeviceDataFrame.Size | cythrust/__init__.py:118-120 | IndexError exactly without views; otherwise the upper minus the lower index bound, never negative on a valid frame |
| DataFrame.DeviceDataFrame.Views | cythrust/__init__.py:146-147 | The views, one per column in column order |
| DataFrame.NegativeStartCountsFromEnd | cythrust/__init__.py:126-127 | A negative start is the same as size + start |
| DataFrame.NegativeEndCountsFromEnd | cythrust/__init__.py:128-129 | A negative end is the same as size + end + 1 |
| DataFrame.EndIsClamped | cythrust/__init__.py:130-131 | An end past the size is the same as the size |
| DataFrame.InRangeViewIsTranslated | cythrust/__init__.py:134-138 | Rows [start, end) inside the frame are the absolute rows [firstI + start, firstI + end) |
| DataFrame.ViewOfView | cythrust/__init__.py:122-144 | Rows [s2, e2) of a view of rows [s1, e1) are rows [s1 + s2, s1 + e2) of the frame |
| DataFrame.LastThreeRows | cythrust/__init__.py:126-131 | On ten rows `view(-3, -1)` and `view(7, 10)` are both the rows [7, 10) |
| DataFrame.DeviceDataFrame.View | cythrust/__init__.py:122-144 | IndexError without views. Otherwise it succeeds exactly when the resolved window fits every vector; it gives a fresh frame over the same data object whose every column has a view of that window, so its index bounds are the window |
| DataFrame.DeviceDataFrame.SetItem | cythrust/__init__.py:84-102 | A table naming a column without a view: KeyError, nothing written. Success exactly when the view layer accepts every write: a scalar broadcast to every view, a sequence of values written to every view, a table's columns to their own views. On success exactly those columns hold the written rows and the others are unchanged. On failure the error is the view layer's verdict on the first refused write in the loop's order; the columns before it are written and all others unchanged. On an aligned frame with a uniform value that first write is the first one of all, so nothing is written |
| DataFrame.DeviceDataFrame.WriteAll | cythrust/__init__.py:97-102 | The write loop: success exactly when every targeted column's write is accepted, and then exactly the targeted columns are written; otherwise it stops at the first refused write with its error, with the earlier columns written and the rest unchanged |
| DataFrame.DeviceDataFrame.FailureWitness | cythrust/__init__.py:97-102 | When the loop's write at position i is refused, the earlier writes were accepted and are done, and nothing else is written |
| DataFrame.DeviceDataFrame.Order | cythrust/__init__.py:97-102 | The write order: the table's columns in the table's order, or every view in the frame's order, each once |
| DataFrame.DeviceDataFrame.WriteColumn | cythrust/__init__.py:99 | One column's write, with the view layer's verdict; the loop's written-so-far state grows by that column |
| DataFrame.DeviceDataFrame.SameCheck | cythrust/__init__.py:100-102 | On an aligned frame a uniform value is accepted by all views or by none |
| DeviceVectors.FromArray | cythrust/__init__.py:28 | `dv.from_array`: a fresh vector with a copy of the host data |
| DeviceVectors.FullView | cythrust/__init__.py:39-41 | `dv.view_from_vector(v)`: a view of v starting at 0 whose size is the vector's length |
| DeviceVectors.CheckWrite | cythrust/__init__.py:97-102 | The view layer's verdict on a write: accepted exactly when the rows lie inside the view and a sequence has one value per row; a shape error only for a sequence of the wrong length |
| DeviceVectors.ViewFromVector | cythrust/__init__.py:54-56 | `dv.view_from_vector`: succeeds exactly when the window lies inside the vector, with that vector and window; a bounds error otherwise |
| DeviceVectors.Assign | cythrust/__init__.py:99 | A view write: fails with the error `CheckWrite` gives and changes nothing, or writes exactly the rows firstI + lo … firstI + hi - 1 of the vector |
| DeviceVectors.BroadcastFillsWindow | cythrust/__init__.py:101-102 | Broadcasting to all rows fills the window with the value and leaves the rest of the vector |
| DeviceVectors.ValuesBecomeWindow | cythrust/__init__.py:99 | Writing a sequence of one value per row to all rows of a view makes the window exactly that sequence |
| OrderedDicts.OrderedDict.Set | cythrust/__init__.py:52 | A new key is appended, an existing key keeps its place, the mapping is updated, the keys stay distinct |
| OrderedDicts.OrderedDict.Delete | cythrust/__init__.py:59-60 | The key is removed from its position, the others keep their order |
| OrderedDicts.OrderedDict.Values | cythrust/__init__.py:147 | `values()`: one value per key, in key order |
| OrderedDicts.OrderedDict.First | cythrust/__init__.py:47 | `values()[0]` |
| OrderedDicts.SetThenDelete | cythrust/__init__.py:52-60 | Adding a new column and dropping it restores the dictionary |
| OrderedDicts.DeleteThenSet | cythrust/__init__.py:52-60 | Dropping a column and adding it again moves it to the end |
| FunctionalTuples.PointWise | cythrust/src/functional_tuples.hpp:38-40 | Component i is fs[i](a[i], b[i]); the result has one component per functor |
| FunctionalTuples.Reduce2Pair | cythrust/src/functional_tuples.hpp:10-24 | `reduce2pair(p)` is `reduce2(p.first, p.second)` |
| FunctionalTuples.Reduce2 | cythrust/src/functional_tuples.hpp:26-42 | The point-wise combiner over two functors |
| FunctionalTuples.Reduce3 | cythrust/src/functional_tuples.hpp:44-63 | The point-wise combiner over three functors |
| FunctionalTuples.Reduce4 | cythrust/src/functional_tuples.hpp:65-87 | The point-wise combiner over four functors |
| FunctionalTuples.Reduce5 | cythrust/src/functional_tuples.hpp:89-114 | The point-wise combiner over five functors |
| FunctionalTuples.Reduce6 | cythrust/src/functional_tuples.hpp:116-144 | The point-wise combiner over six functors |
| FunctionalTuples.Reduce7 | cythrust/src/functional_tuples.hpp:146-177 | The point-wise combiner over seven functors |
| FunctionalTuples.Reduce8 | cythrust/src/functional_tuples.hpp:179-213 | The point-wise combiner over eight functors |
| FunctionalTuples.Reduce9 | cythrust/src/functional_tuples.hpp:216-252 | The point-wise combiner over nine functors; a 9-tuple |
| FunctionalTuples.PointWiseIsLocal | cythrust/src/functional_tuples.hpp:81-85 | Component i of the result depends only on component i of the inputs |
| FunctionalTuples.PointWiseIgnoresExtra | cythrust/src/functional_tuples.hpp:241-250 | Components beyond the arity are never read |
| FunctionalTuples.PointWiseAppend | cythrust/src/functional_tuples.hpp:241-250 | A reducer over fs + gs is the reducer over fs followed by the reducer over gs on the remaining components |
| FunctionalTuples.PointWiseAssociative | cythrust/src/functional_tuples.hpp:58-61 | Associative when every component functor is |
| FunctionalTuples.PointWiseCommutative | cythrust/src/functional_tuples.hpp:58-61 | Commutative when every component functor is |
| UnpackArgs.UnpackBinary | cythrust/src/unpack_args.hpp:5-18 | No contract of its own; see `UnpackArgs.UnpackBinaryOfTuple` and `UnpackArgs.UnpackIgnoresExtra` |
| UnpackArgs.UnpackTernary | cythrust/src/unpack_args.hpp:21-35 | No contract of its own; see `UnpackArgs.UnpackTernaryOfTuple` and `UnpackArgs.UnpackIgnoresExtra` |
| UnpackArgs.UnpackQuaternary | cythrust/src/unpack_args.hpp:38-52 | No contract of its own; see `UnpackArgs.UnpackQuaternaryOfTuple` and `UnpackArgs.UnpackIgnoresExtra` |
| UnpackArgs.UnpackQuinary | cythrust/src/unpack_args.hpp:55-70 | No contract of its own; see `UnpackArgs.UnpackQuinaryOfTuple` and `UnpackArgs.UnpackIgnoresExtra` |
| UnpackArgs.UnpackBinaryOfTuple | cythrust/src/unpack_args.hpp:15-16 | The functor receives components 0 and 1 in order |
| UnpackArgs.UnpackTernaryOfTuple | cythrust/src/unpack_args.hpp:31-33 | The functor receives components 0 … 2 in order |
| UnpackArgs.UnpackQuaternaryOfTuple | cythrust/src/unpack_args.hpp:48-50 | The functor receives components 0 … 3 in order |
| UnpackArgs.UnpackQuinaryOfTuple | cythrust/src/unpack_args.hpp:65-68 | The functor receives components 0 … 4 in order |
| UnpackArgs.UnpackIgnoresExtra | cythrust/src/unpack_args.hpp:5-68 | Components beyond the arity never reach the functor |
| Functional.TruncDiv | cythrust/src/functional.hpp:28 | C++ division: the remainder is zero or has the dividend's sign, and is smaller than the divisor in magnitude |
| Functional.ReverseDivides | cythrust/src/functional.hpp:22-30 | `b / a` with C++ truncating division, for a != 0 |
| Functional.TruncDivOddInDividend | cythrust/src/functional.hpp:28 | Negating the dividend negates the quotient (rounding toward zero) |
| Functional.TruncDivNonNegative | cythrust/src/functional.hpp:28 | On non-negative operands it is Euclidean division |
| Functional.Duplicate | cythrust/src/functional.hpp:40 | A pair of two equal components, each a |
| Functional.DuplicateThenUnpack | cythrust/src/functional.hpp:40 | `duplicate(a)` is the pair (a, a): unpacked, a binary functor receives a twice |
| Functional.MinMax | cythrust/src/functional.hpp:52 | Two components, the first <= the second, together the inputs as a multiset |
| Functional.MinMaxOfDuplicate | cythrust/src/functional.hpp:40-52 | `minmax(a, a)` is `duplicate(a)` |
| Functional.MinMaxSymmetric | cythrust/src/functional.hpp:52 | The order of the arguments does not matter |
| Functional.MinMaxTuple | cythrust/src/functional.hpp:64-68 | `minmax` of the first components, ordered and a permutation of them |
| Functional.MinMaxTupleIgnoresTail | cythrust/src/functional.hpp:64-68 | Other components never influence the result |
| Functional.Absolute | cythrust/src/functional.hpp:78 | Non-negative, and a or -a |
| Functional.AbsoluteIdempotent | cythrust/src/functional.hpp:78 | `absolute` of `absolute(a)` is `absolute(a)` |
| Functional.Square | cythrust/src/functional.hpp:87 | Non-negative, the square of the absolute value |
| Functional.SquareOfNegation | cythrust/src/functional.hpp:87 | `square(-a) == square(a)` |
| Functional.ReducePlus4 | cythrust/src/functional.hpp:107-110 | The point-wise combiner with four additions |
| Functional.ReducePlus4Associative | cythrust/src/functional.hpp:107-110 | Associative, a valid parallel-reduction operator |
| Functional.ReducePlus4Commutative | cythrust/src/functional.hpp:107-110 | Commutative |
| Functional.ReducePlus4WithDummy | cythrust/src/functional.hpp:126-130 | `reduce_plus4` on components 0–3 and a fifth component that is always 0 |
| Functional.ReducePlus4WithDummyAssociative | cythrust/src/functional.hpp:126-130 | Associative |
| Functional.Plus4 | cythrust/src/functional.hpp:140 | The sum of its four arguments |
| Functional.Plus5 | cythrust/src/functional.hpp:149-151 | The sum of its five arguments |
| Functional.PlusTuple2 | cythrust/src/functional.hpp:162 | The sum of the first two components |
| Functional.PlusTuple5 | cythrust/src/functional.hpp:174-175 | The sum of the first five components; `plus5` behind the quinary unpacker |
| Functional.PlusTuple5IsUnpackedPlus5 | cythrust/src/functional.hpp:149-175 | `plus_tuple5` of a 5-tuple is `plus5` of its components |
| Functional.NonPositive | cythrust/src/functional.hpp:186 | 0 or 1, and 1 exactly when t <= 0 |
| Functional.Negative | cythrust/src/functional.hpp:196 | 0 or 1, and 1 exactly when t < 0 |
| Functional.NonNegative | cythrust/src/functional.hpp:206 | 0 or 1, and 1 exactly when t >= 0 |
| Functional.Positive | cythrust/src/functional.hpp:216 | 0 or 1, and 1 exactly when t > 0 |
| Functional.LessThanConstant.Apply | cythrust/src/functional.hpp:221-230 | 0 or 1, and 1 exactly when v is less than the stored constant |
| Functional.Sum | cythrust/src/functional.hpp:140-175 | The reference sum: the sum of all but the last element plus the last |
| Functional.SignComplements | cythrust/src/functional.hpp:186-216 | `non_positive` is not `positive`, `non_negative` is not `negative` |
| Functional.LessThanConstantIsNegativeDifference | cythrust/src/functional.hpp:221-230 | `less_than_constant(c)(v)` is 1 exactly when v < c, i.e. `negative(v - c)` |
| Functional.SumOfShort | cythrust/src/functional.hpp:140-175 | The reference sum, written out for up to five terms |
| RepeatedRange.RepeatIndex | cythrust/src/repeated_range_iterator.h:30-32 | `i / repeats`: the block j with j * repeats <= i < (j + 1) * repeats |
| RepeatedRange.Element | cythrust/src/repeated_range_iterator.h:51-55 | Dereferencing `begin() + k` reads an element of the source |
| RepeatedRange.BlockIndex | cythrust/src/repeated_range_iterator.h:30-32 | Every index of block j maps to j |
| RepeatedRange.RepeatIndexMonotone | cythrust/src/repeated_range_iterator.h:30-32 | The index map is non-decreasing |
| RepeatedRange.BlockBound | cythrust/src/repeated_range_iterator.h:51-55 | An index below n * repeats reads a source index below n |
| RepeatedRange.RepeatedElement | cythrust/src/repeated_range_iterator.h:51-55 | Element k of the repeated range is `first[k / repeats]` |
| RepeatedRange.BlockIsReplicated | cythrust/src/repeated_range_iterator.h:12-14 | Block j is `repeats` copies of source element j |
| RepeatedRange.RepeatOnce | cythrust/src/repeated_range_iterator.h:12 | With one repeat the range is the source |
| RepeatedRange.HeaderExampleOnce | cythrust/src/repeated_range_iterator.h:12 | `[0, 1, 2, 3]` once |
| RepeatedRange.HeaderExampleTwice | cythrust/src/repeated_range_iterator.h:13 | `[0, 1, 2, 3]` twice gives `[0, 0, 1, 1, 2, 2, 3, 3]` |
| RepeatedRange.HeaderExampleThrice | cythrust/src/repeated_range_iterator.h:14 | `[0, 1, 2, 3]` three times gives each element three times in a row |
| UniformRandom.Next | cythrust/src/UniformRandomGenerator.hpp:55 | No contract of its own; see `UniformRandom.NextWraps` |
| UniformRandom.Mask | cythrust/src/UniformRandomGenerator.hpp:56 | The masked value lies in [0, 2^31) |
| UniformRandom.NextWraps | cythrust/src/UniformRandomGenerator.hpp:55 | The step is `state * 1103515245 + 12345` up to a multiple of 2^32, and fits 32 bits |
| UniformRandom.StateAfterFirstStep | cythrust/src/UniformRandomGenerator.hpp:55 | n steps are the first step followed by n - 1 steps |
| UniformRandom.StateAfterAdd | cythrust/src/UniformRandomGenerator.hpp:55 | m + n steps are m steps followed by n steps |
| UniformRandom.UniformRandomGeneratorBase.constructor | cythrust/src/UniformRandomGenerator.hpp:30 | The default constructor starts from state 0 |
| UniformRandom.UniformRandomGeneratorBase.Seeded | cythrust/src/UniformRandomGenerator.hpp:32 | The seeded constructor starts from the seed |
| UniformRandom.UniformRandomGeneratorBase.CurrentValue | cythrust/src/UniformRandomGenerator.hpp:35-37 | `current_value()` is the state; as a function it changes nothing |
| UniformRandom.UniformRandomGeneratorBase.Seed | cythrust/src/UniformRandomGenerator.hpp:35-42 | After `seed(s)`, `current_value()` is s |
| UniformRandom.UniformRandomGeneratorBase.IRand | cythrust/src/UniformRandomGenerator.hpp:50-56 | The state becomes (state * 1103515245 + 12345) mod 2^32 and the masked value lies in [0, 2^31) |
| UniformRandom.UniformRandomGeneratorBase.IRandFull | cythrust/src/UniformRandomGenerator.hpp:45-47 | `irand()` takes the same step |
| UniformRandom.UniformRandomGeneratorBase.FRand | cythrust/src/UniformRandomGenerator.hpp:64-70 | Exactly the same state step and mask as `irand` |
| UniformRandom.SameSeedSameStates | cythrust/src/UniformRandomGenerator.hpp:30-70 | Two distinct generators with one seed, one seeded by constructor and one by `seed`, are in the same state, the state after n steps from the seed, after any n draws each, whichever of `irand` and `frand` makes each draw |
| UniformRandom.Step | cythrust/src/UniformRandomGenerator.hpp:55-70 | One draw, by `irand` or by `frand`, takes the one state step |
| UniformRandom.ParkMillerRNGBase.constructor | cythrust/src/UniformRandomGenerator.hpp:95-96 | The default constructor starts from seed 0 |
| UniformRandom.ParkMillerRNGBase.Seeded | cythrust/src/UniformRandomGenerator.hpp:99-100 | The seeded constructor stores the seed |
| UniformRandom.ParkMillerRNGBase.CurrentValue | cythrust/src/UniformRandomGenerator.hpp:113-115 | `current_value()` is the seed |
| UniformRandom.ParkMillerRNGBase.SetSeed | cythrust/src/UniformRandomGenerator.hpp:103-115 | After `set_seed(s)`, `current_value()` is s |

## Left out

- The pandas paths are not modelled, because they hold conversions to and from pandas, not frame logic: `as_dataframe`, `__getitem__`, the `pd.DataFrame` branch of the constructor, and the `ValueError` for another input type. A table value of `__setitem__` is an ordered dictionary of host columns; any other value is a scalar or a sequence of integers, which every view receives.
- The debug `print` in `view` is not modelled, because it is output only.
- The `astype` branch of `add` is not modelled. With `dtype is None`, `column_data.astype(None)` converts the data to numpy's default float64: a new float array, in which integers beyond 2^53 lose precision. The model keeps the integer values, because it does not model element types: `DType` only records whether a dtype was given, and every vector holds integers.
- `view(start)` and `view(start, end)` take integer positions. Slice steps and `None` positions of row keys are not modelled; `__setitem__` takes the rows as a range.
- The constructor's dictionary is taken in its key order. A Python 2 `dict` has an arbitrary order, which the model does not capture.
- `cythrust.device_vector` is not part of this model. The views' bounds and shape checks are the model's own statement of that module's behaviour, not its code; the bounds check on the rows of a write is assumed.
- Device execution, CUDA streams and concurrency are not modelled.
- Element types of tuples are not modelled: all components of a tuple share one type, whereas thrust tuples may mix them.
- Overflow of the element type in the functors (`absolute` of the most negative value, `square`, the sums) is not modelled; they compute over mathematical integers.
- The floating-point functors `power` and `square_root` are not modelled, and neither is the rest of floating-point arithmetic.
- UniformRandom.UniformRandomGeneratorBase.IRand: returns the masked value, not the floating-point scaling to [0, imax] that ends it, because that is floating-point arithmetic.
- UniformRandom.UniformRandomGeneratorBase.IRandFull: returns the masked value of `irand`, with the same gap.
- UniformRandom.UniformRandomGeneratorBase.FRand: returns the masked value, not its floating-point quotient by IM.
- UniformRandom.Mask: states the range of the masked value but not that the mask equals the remainder modulo IM, because the proof relating `bv32` and integer arithmetic does not close.
- The generator's width is fixed at 32 bits; other instantiations of `T` are not modelled.
- `ParkMillerRNGBase::MOD`, `get_value`, `rand_int`, `rand_real` and `operator()` are not modelled, and neither is `SimpleRNG`: they go through floating-point temporaries and `floor`.
- `Describe.hpp`, `partition.h`, `unique.h`, `reduce.hpp`, `template.py`, the build script, plotting and timing helpers are outside the core.
