# EuclideanVector in Dafny

A model of `EuclideanVector`, a C++ class that owns a heap buffer of `double`
magnitudes together with its dimension, and of `EuclideanVectorError`, the
exception it throws. The model keeps the class's form: a Dafny `class` with an
`array<real>` buffer and a `vectorLength` field, constructors that allocate the
buffer, in-place member operations (`+=`, `-=`, `*=`, `/=`, `[]`, `at`) as
methods with `modifies` clauses and loops, and the friend operators as methods
that read their operands and return a bool (`==`, `!=`), a number (the dot
product `*`), a text (`<<`) or a new vector (`+`, `-`, scalar `*` and `/`).
The friend operators, the norm and the unit vector are proved equal to pure
functions on the magnitude sequence, whose properties are proved as lemmas;
each in-place method states its new contents element by element in terms of
the old ones, and `Clients` proves each compound assignment equal to its
operator's function.

Files:

- `errors.dfy` (module `Errors`): the exception type, `Result`/`Outcome` for
  "returns or throws", every message word for word, and the decimal rendering
  of `int` that the dimension and index messages embed.
- `magnitudes.dfy` (module `Magnitudes`): the operators as functions over
  `seq<real>`, with the lemmas that relate them (inverse operations, symmetry,
  the guards of the unit vector, reading a rendering back).
- `euclidean_vector.dfy` (module `EuclideanVectors`): the class and the friend
  operators; the friend operators, the norm and the unit vector are proved
  equal to `Magnitudes` functions, and the in-place methods state their new
  contents element by element.
- `clients.dfy` (module `Clients`): uses that combine several operations
  (copy independence, moves, each compound assignment against its operator,
  round trips) and the concrete cases of the project's test suite.

Throwing is modelled by returning `Err`/`Fail` with the exception; an operation
that throws changes nothing. Magnitudes are exact reals. The square root taken
from the C library is a parameter `sqrt: real -> real`, and the stream's
formatting of a `double` is a parameter `show: real -> string`.

## Model

| member | source | states |
|---|---|---|
| Errors.EuclideanVectorError.What | euclidean_vector.h:13-20 | what() returns the stored message: an error built from it is the same error |
| Errors.IntToString | euclidean_vector.cpp:74-76 | an int streamed into the message is a '-' exactly for negatives, then decimal digits with no leading zero (except 0 itself), and reads back as the same int |
| Errors.DimensionMismatch | euclidean_vector.cpp:73-78 | the mismatch message reads back, field by field, as exactly (LHS, RHS) |
| Errors.InvalidIndex | euclidean_vector.cpp:135-139 | the at() message reads back as exactly the index |
| Errors.MismatchMessageDeterminesDimensions | euclidean_vector.cpp:73-78 | the mismatch message determines both dimensions: different (LHS, RHS) pairs never give the same text |
| Errors.IndexMessageDeterminesIndex | euclidean_vector.cpp:135-139 | the at() message determines the index: different indices never give the same text |
| Errors.ExpectedMismatchMessage | euclidean_vector_test.cpp:257-259 | LHS 5 against RHS 4 gives exactly "Dimensions of LHS(5) and RHS(4) do not match" |
| Errors.ExpectedNegativeIndexMessage | euclidean_vector_test.cpp:469-471 | index -1 gives exactly "Index -1 is not valid for this EuclideanVector object" |
| Errors.ExpectedIndexMessage | euclidean_vector_test.cpp:479-481 | index 5 gives exactly "Index 5 is not valid for this EuclideanVector object" |
| Magnitudes.Add | euclidean_vector.h:48-61 | different dimensions fail with the message naming LHS then RHS; otherwise same dimension and element i is u[i] + v[i] |
| Magnitudes.Sub | euclidean_vector.h:63-76 | different dimensions fail with the mismatch message; otherwise element i is u[i] - v[i] |
| Magnitudes.Scale | euclidean_vector.h:93-103 | same dimension, element i is u[i] * d |
| Magnitudes.DivideEach | euclidean_vector.h:109-113 | for d != 0: same dimension, element i is u[i] / d |
| Magnitudes.SameMagnitudes | euclidean_vector.h:34-42 | operator== (same dimension, equal at every index) holds exactly when the two magnitude sequences are equal, both directions |
| Magnitudes.DotFrom | euclidean_vector.h:79-90 | mismatch fails with the LHS-first message; otherwise the dot product is the accumulator's start plus the sum of products accumulated from 0 |
| Magnitudes.Dot | euclidean_vector.h:78-91 | mismatch fails with the message; equal dimensions always give a value, and two empty vectors give 0 |
| Magnitudes.Divide | euclidean_vector.h:105-114 | d == 0 fails with the division message; otherwise same dimension and element i is u[i] / d |
| Magnitudes.NormFrom | euclidean_vector.cpp:157-167 | dimension 0 fails with the no-norm message; otherwise the root of the accumulator's start plus the sum of squares |
| Magnitudes.Norm | euclidean_vector.cpp:157-167 | dimension 0 fails with the no-norm message; otherwise the root of the vector dotted with itself |
| Magnitudes.UnitVectorFrom | euclidean_vector.cpp:168-181 | with the norm accumulated from a given start: no-dimensions error first, then zero-norm error, otherwise element i is m[i] over that norm |
| Magnitudes.UnitVector | euclidean_vector.cpp:168-181 | no-dimensions error for dimension 0, zero-norm error when the root of the sum of squares is 0, otherwise same dimension and element i is m[i] over the norm |
| Magnitudes.Join | euclidean_vector.h:117-123 | when no text contains a space, the layout between the brackets has exactly one space fewer than there are texts |
| Magnitudes.SubUndoesAdd | euclidean_vector.h:48-76 | (u + v) - v is u for equal dimensions |
| Magnitudes.DivideUndoesScale | euclidean_vector.h:93-114 | (u * d) / d is u for d != 0 |
| Magnitudes.DotSymmetric | euclidean_vector.h:78-91 | u * v equals v * u for equal dimensions |
| Magnitudes.DotSelfIsSumOfSquares | euclidean_vector.h:86-88 | u * u is the sum of squares the norm takes the root of |
| Magnitudes.SumOfSquaresOfZeros | euclidean_vector.cpp:161-164 | a vector of zeros has sum of squares 0 |
| Magnitudes.UnitVectorGuards | euclidean_vector.cpp:168-181 | the no-dimensions error happens exactly for dimension 0, the zero-norm error exactly for a non-empty vector of norm 0; otherwise element i is m[i] over the norm |
| Magnitudes.ZeroVectorHasNoUnitVector | euclidean_vector.cpp:171-174 | a non-empty vector of zeros has norm 0 and no unit vector (zero-norm error) |
| Magnitudes.DotFromAgreesOnlyFromZero | euclidean_vector.h:86-90 | the dot product with the accumulator left at an arbitrary start agrees with the one started at 0 iff the start is 0; two empty vectors give the start |
| Magnitudes.UninitialisedNormMissesZeroVector | euclidean_vector.cpp:161-174 | with the norm accumulator at a start whose root is non-zero, a zero vector gets a unit vector instead of the zero-norm error; started at 0 it gets the error |
| Magnitudes.SplitJoin | euclidean_vector.h:116-125 | the space-separated texts printed between the brackets split back into exactly the texts, in order |
| EuclideanVectors.EuclideanVector.Valid | euclidean_vector.h:150-152 | the class invariant: the buffer holds exactly vectorLength magnitudes, so the dimension is never negative |
| EuclideanVectors.EuclideanVector.DividedBy | euclidean_vector.cpp:176-178 | the loop of CreateUnitVector: every magnitude divided by the non-zero norm, in order |
| EuclideanVectors.EuclideanVector.Sized | euclidean_vector.cpp:17 | dimension n, every magnitude 0.0, own buffer |
| EuclideanVectors.EuclideanVector.Filled | euclidean_vector.cpp:19-23 | dimension n, every magnitude d, own buffer |
| EuclideanVectors.EuclideanVector.FromRange | euclidean_vector.cpp:25-30 | dimension end - begin, magnitudes the range's elements in order |
| EuclideanVectors.EuclideanVector.Copy | euclidean_vector.cpp:32-35 | same magnitudes in a fresh buffer |
| EuclideanVectors.EuclideanVector.Move | euclidean_vector.cpp:37-40 | takes over the source's buffer and dimension; the source is left with dimension 0 |
| EuclideanVectors.EuclideanVector.CopyAssign | euclidean_vector.cpp:44-50 | the target gets the source's magnitudes in a fresh buffer; the source is unchanged |
| EuclideanVectors.EuclideanVector.MoveAssign | euclidean_vector.cpp:52-58 | the target takes over the source's buffer; the source is left with dimension 0 |
| EuclideanVectors.EuclideanVector.Subscript | euclidean_vector.cpp:66-70 | for an index the caller keeps in range, the magnitude at that index |
| EuclideanVectors.EuclideanVector.SubscriptAssign | euclidean_vector.cpp:60-64 | for an index in range, only that magnitude changes |
| EuclideanVectors.EuclideanVector.AddAssign | euclidean_vector.cpp:72-84 | mismatch fails with the message and changes nothing; otherwise magnitude i becomes old this[i] + old v[i], and v is unchanged unless it shares the buffer |
| EuclideanVectors.EuclideanVector.SubAssign | euclidean_vector.cpp:86-98 | as +=, with old this[i] - old v[i] |
| EuclideanVectors.EuclideanVector.MulAssign | euclidean_vector.cpp:100-105 | never fails; magnitude i becomes old this[i] * d |
| EuclideanVectors.EuclideanVector.DivAssign | euclidean_vector.cpp:107-115 | d == 0 fails with "Invalid vector division by 0" and changes nothing; otherwise magnitude i becomes old this[i] / d |
| EuclideanVectors.EuclideanVector.ToVector | euclidean_vector.cpp:117-123 | the magnitudes, in order |
| EuclideanVectors.EuclideanVector.ToList | euclidean_vector.cpp:125-131 | a sequence of the dimension's length holding the magnitudes in order |
| EuclideanVectors.EuclideanVector.At | euclidean_vector.cpp:144-152 | an index below 0 or at least the dimension fails with the message naming it; otherwise the magnitude |
| EuclideanVectors.EuclideanVector.AtAssign | euclidean_vector.cpp:134-142 | an invalid index fails and changes nothing; otherwise only that magnitude changes |
| EuclideanVectors.EuclideanVector.GetNumDimensions | euclidean_vector.cpp:154-156 | the number of magnitudes |
| EuclideanVectors.EuclideanVector.GetEuclideanNorm | euclidean_vector.cpp:157-167 | equals Norm: dimension 0 fails with the no-norm message, otherwise sqrt of the sum of squares accumulated from 0 |
| EuclideanVectors.EuclideanVector.CreateUnitVector | euclidean_vector.cpp:168-181 | equals UnitVector, error for error, and a result is a new vector with its own buffer |
| EuclideanVectors.Equals | euclidean_vector.h:34-42 | true iff same dimension and equal magnitudes at every index |
| EuclideanVectors.NotEquals | euclidean_vector.h:44-46 | true iff operator== is false |
| EuclideanVectors.Sum | euclidean_vector.h:48-61 | equals Add, error for error; a result is a new vector |
| EuclideanVectors.Difference | euclidean_vector.h:63-76 | equals Sub, error for error; a result is a new vector |
| EuclideanVectors.DotProduct | euclidean_vector.h:78-91 | equals the dot product accumulated from 0, or the mismatch error |
| EuclideanVectors.Product | euclidean_vector.h:93-99 | a new vector equal to Scale(u, d) |
| EuclideanVectors.ProductLeft | euclidean_vector.h:101-103 | d * u is a new vector equal to u * d, i.e. Scale(u, d) |
| EuclideanVectors.Quotient | euclidean_vector.h:105-114 | d == 0 fails with the division message; otherwise a new vector with element i = u[i] / d |
| EuclideanVectors.Render | euclidean_vector.h:116-125 | appends "[", the magnitudes' texts separated by single spaces, and "]"; dimension 0 gives "[]" |
| Clients.CopyIsIndependent | euclidean_vector.cpp:32-35 | writing into a copy changes the copy only |
| Clients.CopyEqualsOriginal | euclidean_vector_test.cpp:167-172 | a copy is == and not != its original |
| Clients.MoveLeavesSourceEmpty | euclidean_vector_test.cpp:140-155 | the moved-to vector has the magnitudes, the moved-from one dimension 0 |
| Clients.MoveAssignLeavesSourceEmpty | euclidean_vector.cpp:52-58 | after move assignment the target has the magnitudes, the source dimension 0 |
| Clients.CopyAssignCopies | euclidean_vector.cpp:44-50 | after copy assignment target and source both hold the source's magnitudes |
| Clients.RangeRoundTrip | euclidean_vector.cpp:117-131 | a vector built from a range converts back to the same range, as vector and as list |
| Clients.SumAgreesWithAddAssign | euclidean_vector.cpp:72-84 | u + v and (copy of u) += v give the same magnitudes or the same error |
| Clients.DifferenceAgreesWithSubAssign | euclidean_vector.cpp:86-98 | u - v and (copy of u) -= v agree, error included |
| Clients.ProductsAgreeWithMulAssign | euclidean_vector.cpp:100-105 | u * d, d * u and (copy of u) *= d agree |
| Clients.QuotientAgreesWithDivAssign | euclidean_vector.cpp:107-115 | u / d and (copy of u) /= d agree, error included |
| Clients.SubAssignUndoesAddAssign | euclidean_vector.cpp:72-98 | += v then -= v restores the magnitudes |
| Clients.DivAssignUndoesMulAssign | euclidean_vector.cpp:100-115 | on a copy, *= d then /= d (d != 0) succeeds and restores the magnitudes |
| Clients.QuotientUndoesProduct | euclidean_vector.h:93-114 | (u * d) / d is u for d != 0 |
| Clients.DotProductCommutes | euclidean_vector.h:78-91 | u * v and v * u agree exactly when the dimensions match; on a mismatch u * v fails naming u first and v * u fails naming v first, so the messages differ |
| Clients.MismatchOrder | euclidean_vector.h:49-54 | swapping two different dimensions changes the mismatch message |
| Clients.AddCases | euclidean_vector_test.cpp:225-259 | [1 2 3 4 5] + [5 4 3 2 1] is [6 6 6 6 6]; against [5 4 3 2] the message names LHS(5) and RHS(4) |
| Clients.SubtractCase | euclidean_vector_test.cpp:268-284 | [1 2 3 4 5] - [5 4 3 2 1] is [-4 -2 0 2 4] |
| Clients.DotCase | euclidean_vector_test.cpp:311-324 | [1 2 3 4 5] * [5 4 3 2 1] is 35 |
| Clients.AtCases | euclidean_vector_test.cpp:458-481 | on [5 10 15 20 25], at(3) is 20.0, and at(-1) and at(5) fail with messages naming the index |
| Clients.AtAssignCase | euclidean_vector_test.cpp:496-503 | setting at(3) of [5 10 15 20 25] to 20.0 succeeds and at(3) then reads 20.0 |
| Clients.NormCase | euclidean_vector_test.cpp:532-541 | the norm of [1 2 3] is the root of 14 |
| Clients.UnitVectorCase | euclidean_vector_test.cpp:572-582 | the unit vector of four 1.0 magnitudes is four 0.5 magnitudes |
| Clients.ZeroVectorUnitVectorFails | euclidean_vector.cpp:168-174 | a vector of zeros with dimensions fails with the zero-norm message |
| Clients.EmptyVectorCases | euclidean_vector_test.cpp:442-446 | dimension 0 prints "[]", has no norm and no unit vector |

## Left out

- Floating point: magnitudes are exact reals, so IEEE rounding, NaN and infinities are not modelled (`d == 0` also rejects only the one zero).
- EuclideanVectors.EuclideanVector.GetEuclideanNorm: the square root is an abstract parameter, so the norm is proved to be sqrt of the sum of squares but no property of the root itself; `pow(x, 2)` is taken as exactly x * x.
- EuclideanVectors.EuclideanVector.CreateUnitVector: does not prove that the unit vector has norm 1, which needs the root's defining property and nonlinear real arithmetic; the guards, the dimension and every element are proved.
- EuclideanVectors.Render: the decimal formatting of a double by the stream is the parameter `show`; the stream itself is the string written so far.
- EuclideanVectors.EuclideanVector.Move: the moved-from object gets a fresh empty buffer where C++ leaves a null `unique_ptr`; both have dimension 0.
- EuclideanVectors.EuclideanVector.CopyAssign: self-assignment is excluded by a precondition; the `release()` of the old buffer (a leak in C++) has no counterpart, as Dafny's heap is garbage collected.
- EuclideanVectors.EuclideanVector.MoveAssign: self-assignment is excluded by a precondition; the moved-from source gets a fresh empty buffer instead of C++'s null `unique_ptr`; the `release()` of the target's old buffer (a leak in C++, euclidean_vector.cpp:55) has no counterpart, as Dafny's heap is garbage collected.
- EuclideanVectors.EuclideanVector.Sized: negative sizes are excluded by a precondition (C++ would fail in `make_unique`); so are Filled's.
- The `int` dimension and index are unbounded integers; 32-bit overflow is not modelled.
- The const and non-const overloads of `operator[]` and `at` share one model each for reading and one for writing.
- The example client program and the test harness are not part of this model; concrete test cases appear as methods in `Clients`.

## Findings

| source | as written | input that shows it | evidently intended | confidence | as-written member | corrected member |
|---|---|---|---|---|---|---|
| euclidean_vector.h:86 | `double dotProd;` is never initialised before `+=` | two empty vectors: the result is the indeterminate start value, not 0 (and every result is off by it) | the accumulator starts at 0 | high; not executed | Magnitudes.DotFromAgreesOnlyFromZero | EuclideanVectors.DotProduct |
| euclidean_vector.cpp:161 | `double norm;` is never initialised before `+=` | a vector of zeros with dimension 1: the norm is the root of the indeterminate start, so CreateUnitVector may divide instead of throwing the zero-norm error (the test suite's case for it is commented out) | the accumulator starts at 0 | high; not executed | Magnitudes.UninitialisedNormMissesZeroVector | EuclideanVectors.EuclideanVector.GetEuclideanNorm |
