/** Uses of EuclideanVector that combine several operations: copies and moves,
    the compound assignments against their friend operators, the conversions
    as a round trip, and the concrete cases the project's test suite checks. */
module Clients {
  import opened Errors
  import opened Magnitudes
  import opened EuclideanVectors

  /** Writing into a copy leaves the original alone: the copy owns its buffer. */
  method CopyIsIndependent(a: EuclideanVector, index: int, x: real) returns (original: seq<real>, copy: seq<real>)
    requires a.Valid() && 0 <= index < a.vectorLength
    ensures original == a.Contents()
    ensures copy == a.Contents()[index := x]
  {
    var c := new EuclideanVector.Copy(a);
    c.SubscriptAssign(index, x);
    original := a.ToVector();
    copy := c.ToVector();
  }

  /** A copy compares equal to its original under operator== and not under operator!=. */
  method CopyEqualsOriginal(a: EuclideanVector) returns (equal: bool, different: bool)
    requires a.Valid()
    ensures equal && !different
  {
    var c := new EuclideanVector.Copy(a);
    equal := Equals(c, a);
    different := NotEquals(c, a);
  }

  /** Move construction hands the magnitudes over and leaves the source with no dimensions. */
  method MoveLeavesSourceEmpty(a: EuclideanVector) returns (taken: seq<real>, left: int)
    requires a.Valid()
    ensures taken == a.Contents() && left == 0
  {
    var source := new EuclideanVector.Copy(a);
    var target := new EuclideanVector.Move(source);
    taken := target.ToVector();
    left := source.GetNumDimensions();
  }

  /** Move assignment does the same to an existing target. */
  method MoveAssignLeavesSourceEmpty(a: EuclideanVector, n: int) returns (taken: seq<real>, left: int)
    requires a.Valid() && n >= 0
    ensures taken == a.Contents() && left == 0
  {
    var source := new EuclideanVector.Copy(a);
    var target := new EuclideanVector.Sized(n);
    target.MoveAssign(source);
    taken := target.ToVector();
    left := source.GetNumDimensions();
  }

  /** Copy assignment gives the target the source's magnitudes and leaves the source as it was. */
  method CopyAssignCopies(a: EuclideanVector, n: int) returns (target: seq<real>, source: seq<real>)
    requires a.Valid() && n >= 0
    ensures target == a.Contents() && source == a.Contents()
  {
    var s := new EuclideanVector.Copy(a);
    var t := new EuclideanVector.Sized(n);
    t.CopyAssign(s);
    target := t.ToVector();
    source := s.ToVector();
  }

  /** A range built from s converts back to s, as a vector and as a list. */
  method RangeRoundTrip(s: seq<real>) returns (asVector: seq<real>, asList: seq<real>)
    ensures asVector == s && asList == s
  {
    var e := new EuclideanVector.FromRange(s, 0, |s|);
    assert s[0..|s|] == s;
    asVector := e.ToVector();
    asList := e.ToList();
    assert asList == s;
  }

  /** The magnitudes of an in-place result, or its error. */
  method InPlaceResult(o: Outcome, e: EuclideanVector) returns (r: Result<seq<real>>)
    requires e.Valid()
    ensures o.Fail? ==> r == Err(o.error)
    ensures o.Pass? ==> r == Ok(e.Contents())
  {
    if o.Fail? {
      return Err(o.error);
    }
    var mags := e.ToVector();
    return Ok(mags);
  }

  /** The magnitudes of a new vector, or its error. */
  method NewVectorResult(r: Result<EuclideanVector>) returns (s: Result<seq<real>>)
    requires r.Ok? ==> r.value.Valid()
    ensures r.Err? ==> s == Err(r.error)
    ensures r.Ok? ==> s == Ok(r.value.Contents())
  {
    if r.Err? {
      return Err(r.error);
    }
    var mags := r.value.ToVector();
    return Ok(mags);
  }

  /** u + v and (a copy of u) += v agree, error message included. */
  method SumAgreesWithAddAssign(u: EuclideanVector, v: EuclideanVector)
    returns (viaSum: Result<seq<real>>, viaAddAssign: Result<seq<real>>)
    requires u.Valid() && v.Valid()
    ensures viaSum == viaAddAssign == Add(u.Contents(), v.Contents())
  {
    var s := Sum(u, v);
    viaSum := NewVectorResult(s);
    var c := new EuclideanVector.Copy(u);
    var o := c.AddAssign(v);
    viaAddAssign := InPlaceResult(o, c);
    if u.vectorLength == v.vectorLength {
      assert c.Contents() == Add(u.Contents(), v.Contents()).value;
    }
  }

  /** u - v and (a copy of u) -= v agree, error message included. */
  method DifferenceAgreesWithSubAssign(u: EuclideanVector, v: EuclideanVector)
    returns (viaDifference: Result<seq<real>>, viaSubAssign: Result<seq<real>>)
    requires u.Valid() && v.Valid()
    ensures viaDifference == viaSubAssign == Sub(u.Contents(), v.Contents())
  {
    var s := Difference(u, v);
    viaDifference := NewVectorResult(s);
    var c := new EuclideanVector.Copy(u);
    var o := c.SubAssign(v);
    viaSubAssign := InPlaceResult(o, c);
    if u.vectorLength == v.vectorLength {
      assert c.Contents() == Sub(u.Contents(), v.Contents()).value;
    }
  }

  /** u * d, d * u and (a copy of u) *= d agree. */
  method ProductsAgreeWithMulAssign(u: EuclideanVector, d: real)
    returns (right: seq<real>, left: seq<real>, viaMulAssign: seq<real>)
    requires u.Valid()
    ensures right == left == viaMulAssign == Scale(u.Contents(), d)
  {
    var p := Product(u, d);
    right := p.ToVector();
    var q := ProductLeft(d, u);
    left := q.ToVector();
    var c := new EuclideanVector.Copy(u);
    c.MulAssign(d);
    viaMulAssign := c.ToVector();
  }

  /** u / d and (a copy of u) /= d agree, error message included. */
  method QuotientAgreesWithDivAssign(u: EuclideanVector, d: real)
    returns (viaQuotient: Result<seq<real>>, viaDivAssign: Result<seq<real>>)
    requires u.Valid()
    ensures viaQuotient == viaDivAssign == Divide(u.Contents(), d)
  {
    var q := Quotient(u, d);
    viaQuotient := NewVectorResult(q);
    var c := new EuclideanVector.Copy(u);
    var o := c.DivAssign(d);
    viaDivAssign := InPlaceResult(o, c);
    if d != 0.0 {
      assert c.Contents() == DivideEach(u.Contents(), d);
    }
  }

  /** Adding v and then subtracting it restores u. */
  method SubAssignUndoesAddAssign(u: EuclideanVector, v: EuclideanVector) returns (back: seq<real>)
    requires u.Valid() && v.Valid() && u.vectorLength == v.vectorLength
    ensures back == u.Contents()
  {
    var c := new EuclideanVector.Copy(u);
    var o := c.AddAssign(v);
    o := c.SubAssign(v);
    back := c.ToVector();
  }

  /** Multiplying a copy by a non-zero d in place and dividing it by d restores u. */
  method DivAssignUndoesMulAssign(u: EuclideanVector, d: real) returns (back: Result<seq<real>>)
    requires u.Valid() && d != 0.0
    ensures back == Ok(u.Contents())
  {
    var c := new EuclideanVector.Copy(u);
    c.MulAssign(d);
    ghost var scaled := c.Contents();
    var o := c.DivAssign(d);
    forall i | 0 <= i < |u.Contents()|
      ensures c.Contents()[i] == u.Contents()[i]
    {
      assert c.Contents()[i] == scaled[i] / d == (u.Contents()[i] * d) / d;
    }
    back := InPlaceResult(o, c);
    assert c.Contents() == u.Contents();
  }

  /** The same round trip through the friend operators: (u * d) / d is u. */
  method QuotientUndoesProduct(u: EuclideanVector, d: real) returns (back: Result<seq<real>>)
    requires u.Valid() && d != 0.0
    ensures back == Ok(u.Contents())
  {
    var p := Product(u, d);
    var q := Quotient(p, d);
    DivideUndoesScale(u.Contents(), d);
    back := NewVectorResult(q);
  }

  /** The dot product does not depend on the order of its operands; on a dimension
      mismatch the two orders fail with different messages, LHS being named first. */
  method DotProductCommutes(u: EuclideanVector, v: EuclideanVector) returns (uv: Result<real>, vu: Result<real>)
    requires u.Valid() && v.Valid()
    ensures u.vectorLength == v.vectorLength <==> uv == vu
    ensures uv.Ok? <==> u.vectorLength == v.vectorLength
    ensures u.vectorLength != v.vectorLength ==>
      uv == Err(DimensionMismatch(u.vectorLength, v.vectorLength)) &&
      vu == Err(DimensionMismatch(v.vectorLength, u.vectorLength))
  {
    uv := DotProduct(u, v);
    vu := DotProduct(v, u);
    if u.vectorLength == v.vectorLength {
      DotSymmetric(u.Contents(), v.Contents());
    } else {
      MismatchOrder(u.vectorLength, v.vectorLength);
    }
  }

  /** Swapping two different dimensions changes the mismatch message. */
  lemma MismatchOrder(lhs: int, rhs: int)
    requires lhs != rhs
    ensures DimensionMismatch(lhs, rhs) != DimensionMismatch(rhs, lhs)
  {
    if DimensionMismatch(lhs, rhs) == DimensionMismatch(rhs, lhs) {
      MismatchMessageDeterminesDimensions(lhs, rhs, rhs, lhs);
    }
  }

  // ---------------------------------------------------------------------------
  // Concrete cases from the test suite.

  method Ascending() returns (e: EuclideanVector)
    ensures fresh(e) && e.Valid() && e.Contents() == [1.0, 2.0, 3.0, 4.0, 5.0]
  {
    var s := [1.0, 2.0, 3.0, 4.0, 5.0];
    e := new EuclideanVector.FromRange(s, 0, |s|);
    assert s[0..|s|] == s;
  }

  method Descending(n: int) returns (e: EuclideanVector)
    requires 0 <= n <= 5
    ensures fresh(e) && e.Valid() && e.Contents() == [5.0, 4.0, 3.0, 2.0, 1.0][..n]
  {
    var s := [5.0, 4.0, 3.0, 2.0, 1.0];
    e := new EuclideanVector.FromRange(s, 0, n);
  }

  /** [1 2 3 4 5] + [5 4 3 2 1] is [6 6 6 6 6]; with [5 4 3 2] instead the message
      names LHS 5 and RHS 4. */
  method AddCases() returns (sum: Result<seq<real>>, mismatch: Result<seq<real>>)
    ensures sum == Ok([6.0, 6.0, 6.0, 6.0, 6.0])
    ensures mismatch.Err? && mismatch.error.What() == "Dimensions of LHS(" + "5" + ") and RHS(" + "4" + ") do not match"
  {
    var u := Ascending();
    var v := Descending(5);
    var w := Sum(u, v);
    sum := NewVectorResult(w);
    assert u.Contents()[0] + v.Contents()[0] == 6.0;
    assert Add(u.Contents(), v.Contents()).value == [6.0, 6.0, 6.0, 6.0, 6.0];
    var x := Descending(4);
    w := Sum(u, x);
    mismatch := NewVectorResult(w);
    ExpectedMismatchMessage();
  }

  /** [1 2 3 4 5] - [5 4 3 2 1] is [-4 -2 0 2 4]. */
  method SubtractCase() returns (difference: Result<seq<real>>)
    ensures difference == Ok([-4.0, -2.0, 0.0, 2.0, 4.0])
  {
    var u := Ascending();
    var v := Descending(5);
    var w := Difference(u, v);
    difference := NewVectorResult(w);
    assert Sub(u.Contents(), v.Contents()).value == [-4.0, -2.0, 0.0, 2.0, 4.0];
  }

  /** [1 2 3 4 5] * [5 4 3 2 1] is 35. */
  method DotCase() returns (dot: Result<real>)
    ensures dot == Ok(35.0)
  {
    var u := Ascending();
    var v := Descending(5);
    dot := DotProduct(u, v);
    var w := Zip(u.Contents(), v.Contents(), Times);
    assert w == [5.0, 8.0, 9.0, 8.0, 5.0];
    assert Accumulate(0.0, w) == 35.0 by {
      assert w[..4] == [5.0, 8.0, 9.0, 8.0] && w[..4][..3] == [5.0, 8.0, 9.0];
      assert w[..4][..3][..2] == [5.0, 8.0] && w[..4][..3][..2][..1] == [5.0];
      assert Accumulate(0.0, [5.0]) == 5.0;
      assert Accumulate(0.0, [5.0, 8.0]) == 13.0;
      assert Accumulate(0.0, [5.0, 8.0, 9.0]) == 22.0;
      assert Accumulate(0.0, [5.0, 8.0, 9.0, 8.0]) == 30.0;
    }
  }

  /** The vector [5 10 15 20 25] that the at() cases use. */
  method Multiples() returns (e: EuclideanVector)
    ensures fresh(e) && fresh(e.magnitudes) && e.Valid() && e.Contents() == [5.0, 10.0, 15.0, 20.0, 25.0]
  {
    var s := [5.0, 10.0, 15.0, 20.0, 25.0];
    e := new EuclideanVector.FromRange(s, 0, |s|);
    assert s[0..|s|] == s;
  }

  /** On [5 10 15 20 25], at(3) is 20.0, and at(-1) and at(5) fail with messages
      naming the index. */
  method AtCases() returns (inRange: Result<real>, low: Result<real>, high: Result<real>)
    ensures inRange == Ok(20.0)
    ensures low.Err? && low.error.What() == "Index " + "-1" + " is not valid for " + "this EuclideanVector object"
    ensures high.Err? && high.error.What() == "Index " + "5" + " is not valid for " + "this EuclideanVector object"
  {
    var u := Multiples();
    inRange := u.At(3);
    low := u.At(-1);
    high := u.At(5);
    ExpectedNegativeIndexMessage();
    ExpectedIndexMessage();
  }

  /** Setting index 3 of [5 10 15 20 25] to 20.0 through at() succeeds, and at(3) then reads 20.0. */
  method AtAssignCase() returns (written: Outcome, read: Result<real>, after: seq<real>)
    ensures written == Pass && read == Ok(20.0)
    ensures after == [5.0, 10.0, 15.0, 20.0, 25.0]
  {
    var u := Multiples();
    written := u.AtAssign(3, 20.0);
    read := u.At(3);
    after := u.ToVector();
  }

  /** The norm of [1 2 3] is the square root of 1 + 4 + 9. */
  method NormCase(sqrt: real -> real) returns (norm: Result<real>)
    ensures norm == Ok(sqrt(14.0))
  {
    var s := [1.0, 2.0, 3.0];
    var e := new EuclideanVector.FromRange(s, 0, |s|);
    assert s[0..|s|] == s;
    norm := e.GetEuclideanNorm(sqrt);
    assert SumOfSquares(s) == 14.0 by {
      SumOfSquaresStep(s, 0);
      SumOfSquaresStep(s, 1);
      SumOfSquaresStep(s, 2);
      assert s[..3] == s;
    }
  }

  /** The unit vector of four magnitudes 1.0 is four magnitudes 0.5, the root of 4 being 2. */
  method UnitVectorCase(sqrt: real -> real) returns (unit: Result<seq<real>>)
    requires sqrt(4.0) == 2.0
    ensures unit == Ok([0.5, 0.5, 0.5, 0.5])
  {
    var e := new EuclideanVector.Filled(4, 1.0);
    var m := e.Contents();
    assert m == [1.0, 1.0, 1.0, 1.0];
    assert SumOfSquares(m) == 4.0 by {
      SumOfSquaresStep(m, 0);
      SumOfSquaresStep(m, 1);
      SumOfSquaresStep(m, 2);
      SumOfSquaresStep(m, 3);
      assert m[..4] == m;
    }
    var r := e.CreateUnitVector(sqrt);
    assert UnitVector(m, sqrt).value == [0.5, 0.5, 0.5, 0.5];
    unit := NewVectorResult(r);
  }

  /** A vector of zeros with at least one dimension has no unit vector, whatever
      square root is used, as long as the root of 0 is 0. */
  method ZeroVectorUnitVectorFails(n: int, sqrt: real -> real) returns (r: Result<EuclideanVector>)
    requires n > 0 && sqrt(0.0) == 0.0
    ensures r == Err(ZeroNorm)
  {
    var e := new EuclideanVector.Sized(n);
    ZeroVectorHasNoUnitVector(e.Contents(), sqrt);
    r := e.CreateUnitVector(sqrt);
  }

  /** A vector with no dimensions prints as "[]", has no norm and no unit vector. */
  method EmptyVectorCases(show: real -> string, sqrt: real -> real)
    returns (text: string, norm: Result<real>, unit: Result<EuclideanVector>)
    ensures text == "[]"
    ensures norm == Err(NoNorm) && unit == Err(NoUnitVector)
  {
    var e := new EuclideanVector.Sized(0);
    text := Render("", e, show);
    norm := e.GetEuclideanNorm(sqrt);
    unit := e.CreateUnitVector(sqrt);
    UnitVectorGuards(e.Contents(), sqrt);
  }
}
