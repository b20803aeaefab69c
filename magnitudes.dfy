/** The friend operators of EuclideanVector as functions over the magnitudes
    (`seq<real>`): what each returns or throws, and the relations between them.
    Elements are exact reals; the operators' loops build their results left to
    right, and the functions here are written in the same order. */
module Magnitudes {
  import opened Errors

  // ---------------------------------------------------------------------------
  // Element-wise building blocks.

  /** f applied at each position of two equal-length sequences, built by
      appending one element at a time. Position i depends only on position i. */
  function Zip(u: seq<real>, v: seq<real>, f: (real, real) -> real): (r: seq<real>)
    requires |u| == |v|
    ensures |r| == |u|
    ensures forall i :: 0 <= i < |r| ==> r[i] == f(u[i], v[i])
  {
    if u == [] then [] else Zip(u[..|u| - 1], v[..|v| - 1], f) + [f(u[|u| - 1], v[|v| - 1])]
  }

  /** f applied at each position, built by appending one element at a time. */
  function Map(u: seq<real>, f: real -> real): (r: seq<real>)
    ensures |r| == |u|
    ensures forall i :: 0 <= i < |r| ==> r[i] == f(u[i])
  {
    if u == [] then [] else Map(u[..|u| - 1], f) + [f(u[|u| - 1])]
  }

  /** A running total that starts at `start` and adds the terms left to right,
      as the `+=` loops of the dot product and the norm do. */
  function Accumulate(start: real, terms: seq<real>): real {
    if terms == [] then start else Accumulate(start, terms[..|terms| - 1]) + terms[|terms| - 1]
  }

  function Plus(a: real, b: real): real { a + b }
  function Minus(a: real, b: real): real { a - b }
  function Times(a: real, b: real): real { a * b }
  function Square(a: real): real { a * a }

  // ---------------------------------------------------------------------------
  // The operators.

  /** operator==: equal dimensions and equal magnitudes at every index, which is
      exactly equality of the magnitude sequences. */
  predicate SameMagnitudes(u: seq<real>, v: seq<real>)
    ensures SameMagnitudes(u, v) <==> u == v
  {
    |u| == |v| && forall i :: 0 <= i < |u| ==> u[i] == v[i]
  }

  /** operator+: the dimensions must match (LHS first in the message), then element-wise sum. */
  function Add(u: seq<real>, v: seq<real>): (r: Result<seq<real>>)
    ensures |u| != |v| ==> r == Err(DimensionMismatch(|u|, |v|))
    ensures |u| == |v| ==> r.Ok? && |r.value| == |u|
    ensures |u| == |v| ==> forall i :: 0 <= i < |u| ==> r.value[i] == u[i] + v[i]
  {
    if |u| != |v| then Err(DimensionMismatch(|u|, |v|)) else Ok(Zip(u, v, Plus))
  }

  /** operator-: the dimensions must match, then element-wise difference, left minus right. */
  function Sub(u: seq<real>, v: seq<real>): (r: Result<seq<real>>)
    ensures |u| != |v| ==> r == Err(DimensionMismatch(|u|, |v|))
    ensures |u| == |v| ==> r.Ok? && |r.value| == |u|
    ensures |u| == |v| ==> forall i :: 0 <= i < |u| ==> r.value[i] == u[i] - v[i]
  {
    if |u| != |v| then Err(DimensionMismatch(|u|, |v|)) else Ok(Zip(u, v, Minus))
  }

  /** operator* on two vectors, with its accumulator starting at `start`. */
  function DotFrom(start: real, u: seq<real>, v: seq<real>): (r: Result<real>)
    ensures |u| != |v| ==> r == Err(DimensionMismatch(|u|, |v|))
    ensures |u| == |v| ==> r == Ok(start + Accumulate(0.0, Zip(u, v, Times)))
  {
    if |u| != |v| then Err(DimensionMismatch(|u|, |v|))
    else
      AccumulateShift(start, Zip(u, v, Times));
      Ok(Accumulate(start, Zip(u, v, Times)))
  }

  /** operator* on two vectors with the accumulator initialised to 0. */
  function Dot(u: seq<real>, v: seq<real>): (r: Result<real>)
    ensures |u| != |v| ==> r == Err(DimensionMismatch(|u|, |v|))
    ensures |u| == |v| ==> r.Ok?
    ensures |u| == |v| == 0 ==> r == Ok(0.0)
  {
    DotFrom(0.0, u, v)
  }

  /** operator* with a scalar (either order): every magnitude times d. */
  function Scale(u: seq<real>, d: real): (r: seq<real>)
    ensures |r| == |u| && forall i :: 0 <= i < |u| ==> r[i] == u[i] * d
  {
    Map(u, a => a * d)
  }

  /** Every magnitude divided by a non-zero d. */
  function DivideEach(u: seq<real>, d: real): (r: seq<real>)
    requires d != 0.0
    ensures |r| == |u| && forall i :: 0 <= i < |u| ==> r[i] == u[i] / d
  {
    Map(u, a => a / d)
  }

  /** operator/ with a scalar: fails for d == 0, otherwise divides every magnitude. */
  function Divide(u: seq<real>, d: real): (r: Result<seq<real>>)
    ensures d == 0.0 ==> r == Err(DivisionByZero)
    ensures d != 0.0 ==> r.Ok? && |r.value| == |u| && forall i :: 0 <= i < |u| ==> r.value[i] == u[i] / d
  {
    if d == 0.0 then Err(DivisionByZero) else Ok(DivideEach(u, d))
  }

  /** The sum of squares, accumulated from `start` (pow(m[i], 2) is m[i] * m[i]). */
  function SumOfSquaresFrom(start: real, m: seq<real>): real {
    Accumulate(start, Map(m, Square))
  }

  function SumOfSquares(m: seq<real>): real {
    SumOfSquaresFrom(0.0, m)
  }

  /** GetEuclideanNorm with its accumulator starting at `start`; `sqrt` is the
      square root the source takes from the C library. */
  function NormFrom(start: real, m: seq<real>, sqrt: real -> real): (r: Result<real>)
    ensures |m| == 0 ==> r == Err(NoNorm)
    ensures |m| > 0 ==> r == Ok(sqrt(start + SumOfSquares(m)))
  {
    if |m| == 0 then Err(NoNorm)
    else
      AccumulateShift(start, Map(m, Square));
      Ok(sqrt(SumOfSquaresFrom(start, m)))
  }

  /** The norm: the root of the vector dotted with itself. */
  function Norm(m: seq<real>, sqrt: real -> real): (r: Result<real>)
    ensures |m| == 0 ==> r == Err(NoNorm)
    ensures |m| > 0 ==> r == Ok(sqrt(Dot(m, m).value))
  {
    DotSelfIsSumOfSquares(m);
    NormFrom(0.0, m, sqrt)
  }

  /** CreateUnitVector, given the norm's accumulator start: dimension 0 fails
      first, then a norm of exactly 0, otherwise every magnitude over the norm. */
  function UnitVectorFrom(start: real, m: seq<real>, sqrt: real -> real): (r: Result<seq<real>>)
    ensures |m| == 0 ==> r == Err(NoUnitVector)
    ensures |m| > 0 && sqrt(start + SumOfSquares(m)) == 0.0 ==> r == Err(ZeroNorm)
    ensures |m| > 0 && sqrt(start + SumOfSquares(m)) != 0.0 ==>
              r.Ok? && |r.value| == |m| &&
              forall i :: 0 <= i < |m| ==> r.value[i] == m[i] / sqrt(start + SumOfSquares(m))
  {
    if |m| == 0 then Err(NoUnitVector)
    else
      var norm := NormFrom(start, m, sqrt).value;
      if norm == 0.0 then Err(ZeroNorm) else Ok(DivideEach(m, norm))
  }

  function UnitVector(m: seq<real>, sqrt: real -> real): (r: Result<seq<real>>)
    ensures |m| == 0 ==> r == Err(NoUnitVector)
    ensures |m| > 0 && sqrt(SumOfSquares(m)) == 0.0 ==> r == Err(ZeroNorm)
    ensures |m| > 0 && sqrt(SumOfSquares(m)) != 0.0 ==>
              r.Ok? && |r.value| == |m| &&
              forall i :: 0 <= i < |m| ==> r.value[i] == m[i] / sqrt(SumOfSquares(m))
  {
    UnitVectorFrom(0.0, m, sqrt)
  }

  // ---------------------------------------------------------------------------
  // Relations between the operators.

  /** Subtracting v undoes adding v. */
  lemma SubUndoesAdd(u: seq<real>, v: seq<real>)
    requires |u| == |v|
    ensures Sub(Add(u, v).value, v) == Ok(u)
  {
    assert Sub(Add(u, v).value, v).value == u;
  }

  /** Dividing by a non-zero d undoes scaling by d. */
  lemma DivideUndoesScale(u: seq<real>, d: real)
    requires d != 0.0
    ensures Divide(Scale(u, d), d) == Ok(u)
  {
    var w := Scale(u, d);
    forall i | 0 <= i < |u|
      ensures DivideEach(w, d)[i] == u[i]
    {
      assert w[i] / d == (u[i] * d) / d == u[i];
    }
    assert DivideEach(w, d) == u;
  }

  /** The dot product does not depend on the order of its operands. */
  lemma DotSymmetric(u: seq<real>, v: seq<real>)
    requires |u| == |v|
    ensures Dot(v, u) == Dot(u, v)
  {
    assert Zip(v, u, Times) == Zip(u, v, Times);
  }

  /** A vector dotted with itself is its sum of squares, the norm's radicand. */
  lemma DotSelfIsSumOfSquares(u: seq<real>)
    ensures Dot(u, u) == Ok(SumOfSquares(u))
  {
    assert Zip(u, u, Times) == Map(u, Square);
  }

  /** A running total started at `start` is `start` plus the total started at 0. */
  lemma {:induction false} AccumulateShift(start: real, terms: seq<real>)
    ensures Accumulate(start, terms) == start + Accumulate(0.0, terms)
  {
    if terms != [] {
      AccumulateShift(start, terms[..|terms| - 1]);
    }
  }

  lemma MapPrefix(u: seq<real>, f: real -> real, k: nat)
    requires k <= |u|
    ensures Map(u, f)[..k] == Map(u[..k], f)
  {
    var a, b := Map(u, f)[..k], Map(u[..k], f);
    forall i | 0 <= i < k
      ensures a[i] == b[i]
    {
      assert u[..k][i] == u[i];
    }
    assert a == b;
  }

  /** One more step of a running product sum, as one more iteration of the dot product's loop. */
  lemma DotStep(u: seq<real>, v: seq<real>, i: nat)
    requires |u| == |v| && i < |u|
    ensures Accumulate(0.0, Zip(u[..i + 1], v[..i + 1], Times))
         == Accumulate(0.0, Zip(u[..i], v[..i], Times)) + u[i] * v[i]
  {
    assert u[..i + 1][..i] == u[..i] && v[..i + 1][..i] == v[..i];
  }

  /** One more step of the sum of squares, as one more iteration of the norm's loop. */
  lemma SumOfSquaresStep(m: seq<real>, i: nat)
    requires i < |m|
    ensures SumOfSquares(m[..i + 1]) == SumOfSquares(m[..i]) + Square(m[i])
  {
    assert m[..i + 1][..i] == m[..i];
  }

  /** A vector of zeros has a sum of squares of 0. */
  lemma {:induction false} SumOfSquaresOfZeros(m: seq<real>)
    requires forall i :: 0 <= i < |m| ==> m[i] == 0.0
    ensures SumOfSquares(m) == 0.0
  {
    if m != [] {
      var n := |m| - 1;
      SumOfSquaresOfZeros(m[..n]);
      MapPrefix(m, Square, n);
      assert Square(m[n]) == 0.0;
    }
  }

  /** CreateUnitVector's guards, in order: a zero-dimension vector fails with the
      first message (and only it does), a zero norm with the second; otherwise the
      result has the same dimension and magnitude i is m[i] over the norm. */
  lemma UnitVectorGuards(m: seq<real>, sqrt: real -> real)
    ensures UnitVector(m, sqrt) == Err(NoUnitVector) <==> |m| == 0
    ensures UnitVector(m, sqrt) == Err(ZeroNorm) <==> |m| > 0 && Norm(m, sqrt) == Ok(0.0)
    ensures UnitVector(m, sqrt).Ok? ==>
              var u := UnitVector(m, sqrt).value;
              |u| == |m| && forall i :: 0 <= i < |m| ==> u[i] == m[i] / Norm(m, sqrt).value
  {
    assert |NoUnitVector.message| != |ZeroNorm.message|;
  }

  /** With a square root that maps 0 to 0, a non-empty vector of zeros is
      reported as having a norm of 0. */
  lemma ZeroVectorHasNoUnitVector(m: seq<real>, sqrt: real -> real)
    requires sqrt(0.0) == 0.0
    requires |m| > 0 && forall i :: 0 <= i < |m| ==> m[i] == 0.0
    ensures Norm(m, sqrt) == Ok(0.0)
    ensures UnitVector(m, sqrt) == Err(ZeroNorm)
  {
    SumOfSquaresOfZeros(m);
  }

  /** The accumulator as written starts from an indeterminate value: the dot
      product then agrees with the one started at 0 only when that value is 0.
      With any other value a zero-dimension dot product is not 0. */
  lemma DotFromAgreesOnlyFromZero(start: real, u: seq<real>, v: seq<real>)
    requires |u| == |v|
    ensures DotFrom(start, u, v) == Dot(u, v) <==> start == 0.0
    ensures DotFrom(start, [], []) == Ok(start)
  {
    AccumulateShift(start, Zip(u, v, Times));
  }

  /** The norm accumulator as written starts from an indeterminate value: when
      the square root of that value is not 0, a vector of zeros gets a non-zero
      norm and CreateUnitVector returns a result instead of reporting the norm of
      0; started at 0, it reports it. */
  lemma UninitialisedNormMissesZeroVector(start: real, m: seq<real>, sqrt: real -> real)
    requires sqrt(0.0) == 0.0 && sqrt(start) != 0.0
    requires |m| > 0 && forall i :: 0 <= i < |m| ==> m[i] == 0.0
    ensures NormFrom(start, m, sqrt) == Ok(sqrt(start))
    ensures UnitVectorFrom(start, m, sqrt).Ok?
    ensures UnitVector(m, sqrt) == Err(ZeroNorm)
  {
    ZeroVectorHasNoUnitVector(m, sqrt);
    SumOfSquaresOfZeros(m);
    AccumulateShift(start, Map(m, Square));
    assert SumOfSquaresFrom(start, m) == start + SumOfSquares(m) == start;
  }

  // ---------------------------------------------------------------------------
  // operator<<: "[", the magnitudes' texts separated by single spaces, "]".

  /** The text of each magnitude; `show` stands for the stream's decimal formatting. */
  function Texts(m: seq<real>, show: real -> string): (r: seq<string>)
    ensures |r| == |m| && forall i :: 0 <= i < |m| ==> r[i] == show(m[i])
  {
    seq(|m|, i requires 0 <= i < |m| => show(m[i]))
  }

  /** The texts separated by single spaces, with no space before the first or after the last. */
  function Join(ts: seq<string>): (r: string)
    ensures (forall i :: 0 <= i < |ts| ==> ' ' !in ts[i]) ==>
              multiset(r)[' '] == if ts == [] then 0 else |ts| - 1
  {
    if ts == [] then "" else if |ts| == 1 then ts[0]
    else
      assert forall i :: 0 <= i < |ts| - 1 ==> ts[1..][i] == ts[i + 1];
      ts[0] + " " + Join(ts[1..])
  }

  /** Every text followed by a space: what the loop of operator<< has written so far. */
  function Spaced(ts: seq<string>): string {
    if ts == [] then "" else ts[0] + " " + Spaced(ts[1..])
  }

  lemma {:induction false} SpacedAppend(ts: seq<string>, t: string)
    ensures Spaced(ts + [t]) == Spaced(ts) + t + " "
  {
    if ts != [] {
      assert (ts + [t])[1..] == ts[1..] + [t];
      SpacedAppend(ts[1..], t);
    } else {
      assert ts + [t] == [t];
    }
  }

  lemma {:induction false} SpacedThenLast(ts: seq<string>, t: string)
    ensures Spaced(ts) + t == Join(ts + [t])
  {
    if ts != [] {
      assert (ts + [t])[1..] == ts[1..] + [t];
      SpacedThenLast(ts[1..], t);
    } else {
      assert ts + [t] == [t];
    }
  }

  /** The index of the first space. */
  function FirstSpace(s: string): (k: nat)
    requires ' ' in s
    ensures k < |s| && s[k] == ' ' && ' ' !in s[..k]
  {
    if s[0] == ' ' then 0
    else
      var k := 1 + FirstSpace(s[1..]);
      assert s[..k] == [s[0]] + s[1..][..k - 1];
      k
  }

  /** The fields of a text separated by single spaces. */
  function Split(s: string): seq<string>
    decreases |s|
  {
    if ' ' !in s then [s] else var k := FirstSpace(s); [s[..k]] + Split(s[k + 1..])
  }

  /** A rendering can be read back: when no text contains a space, splitting the
      joined texts at the spaces gives back exactly the texts, in order. */
  lemma {:induction false} SplitJoin(ts: seq<string>)
    requires |ts| > 0 && forall i :: 0 <= i < |ts| ==> ' ' !in ts[i]
    ensures Split(Join(ts)) == ts
  {
    if |ts| == 1 {
      assert ' ' !in ts[0];
    } else {
      var t, rest := ts[0], Join(ts[1..]);
      var s := t + " " + rest;
      assert s == Join(ts);
      assert s[|t|] == ' ';
      var k := FirstSpace(s);
      assert forall j :: 0 <= j < |t| ==> s[j] == t[j];
      assert forall j :: 0 <= j < k ==> s[..k][j] == s[j];
      assert k == |t|;
      assert s[..k] == t;
      assert s[k + 1..] == rest;
      assert Split(s) == [t] + Split(rest);
      SplitJoin(ts[1..]);
      assert ts == [t] + ts[1..];
    }
  }
}
