/** EuclideanVector: a buffer of magnitudes owned by one object, with its length
    kept beside it. The member functions change the buffer in place; the friend
    operators read their operands and return a bool, a number, a text or a new vector. */
module EuclideanVectors {
  import opened Errors
  import opened Magnitudes

  /** A fresh buffer of n copies of d. */
  method NewFilled(n: int, d: real) returns (a: array<real>)
    requires n >= 0
    ensures fresh(a) && a.Length == n
    ensures forall k :: 0 <= k < n ==> a[k] == d
  {
    a := new real[n];
    for k := 0 to n
      invariant forall j :: 0 <= j < k ==> a[j] == d
    {
      a[k] := d;
    }
  }

  /** A fresh buffer holding the elements of s in order (std::copy). */
  method NewCopyOf(s: seq<real>) returns (a: array<real>)
    ensures fresh(a) && a[..] == s
  {
    a := new real[|s|];
    for k := 0 to |s|
      invariant a[..k] == s[..k]
    {
      a[k] := s[k];
    }
  }

  class EuclideanVector {
    var magnitudes: array<real>
    var vectorLength: int

    /** The class invariant: the buffer holds exactly vectorLength magnitudes, so
        the dimension is never negative. */
    ghost predicate Valid()
      reads this
      ensures Valid() ==> 0 <= vectorLength == magnitudes.Length
    {
      vectorLength == magnitudes.Length
    }

    /** The magnitudes, in order. */
    ghost function Contents(): seq<real>
      reads this, magnitudes
    {
      magnitudes[..]
    }

    /** EuclideanVector(n): dimension n, every magnitude 0.0. */
    constructor Sized(n: int)
      requires n >= 0
      ensures Valid() && fresh(magnitudes)
      ensures |Contents()| == n && forall k :: 0 <= k < n ==> Contents()[k] == 0.0
    {
      var a := NewFilled(n, 0.0);
      vectorLength, magnitudes := n, a;
    }

    /** EuclideanVector(n, d): dimension n, every magnitude d. */
    constructor Filled(n: int, d: real)
      requires n >= 0
      ensures Valid() && fresh(magnitudes)
      ensures |Contents()| == n && forall k :: 0 <= k < n ==> Contents()[k] == d
    {
      var a := NewFilled(n, d);
      vectorLength, magnitudes := n, a;
    }

    /** EuclideanVector(begin, end): the elements of source[begin..end], in order;
        the dimension is end - begin, so an empty range gives dimension 0. */
    constructor FromRange(source: seq<real>, begin: int, end: int)
      requires 0 <= begin <= end <= |source|
      ensures Valid() && fresh(magnitudes)
      ensures Contents() == source[begin..end] && vectorLength == end - begin
    {
      var a := NewCopyOf(source[begin..end]);
      vectorLength, magnitudes := end - begin, a;
    }

    /** Copy constructor: the same magnitudes in a buffer of its own. */
    constructor Copy(e: EuclideanVector)
      requires e.Valid()
      ensures Valid() && fresh(magnitudes)
      ensures Contents() == e.Contents()
    {
      var a := NewCopyOf(e.magnitudes[..]);
      vectorLength, magnitudes := e.vectorLength, a;
    }

    /** Move constructor: takes over e's buffer and dimension; e is left with dimension 0. */
    constructor Move(e: EuclideanVector)
      requires e.Valid()
      modifies e
      ensures Valid() && magnitudes == old(e.magnitudes)
      ensures Contents() == old(e.Contents())
      ensures e.Valid() && e.vectorLength == 0 && fresh(e.magnitudes)
    {
      magnitudes := e.magnitudes;
      vectorLength := e.vectorLength;
      new;
      e.vectorLength := 0;
      e.magnitudes := new real[0];
    }

    /** Copy assignment (from another object): the same magnitudes in a new buffer of
        its own; e is not changed. */
    method CopyAssign(e: EuclideanVector)
      requires Valid() && e.Valid() && e != this
      modifies this
      ensures Valid() && fresh(magnitudes)
      ensures Contents() == e.Contents()
      ensures unchanged(e) && e.Contents() == old(e.Contents())
    {
      vectorLength := e.vectorLength;
      magnitudes := NewCopyOf(e.magnitudes[..]);
    }

    /** Move assignment (from another object): takes over e's buffer and dimension;
        e is left with dimension 0. */
    method MoveAssign(e: EuclideanVector)
      requires Valid() && e.Valid() && e != this
      modifies this, e
      ensures Valid() && magnitudes == old(e.magnitudes)
      ensures Contents() == old(e.Contents())
      ensures e.Valid() && e.vectorLength == 0 && fresh(e.magnitudes)
    {
      vectorLength := e.vectorLength;
      e.vectorLength := 0;
      magnitudes := e.magnitudes;
      e.magnitudes := new real[0];
    }

    /** operator[] (read): unchecked, so the index must be in range. */
    method Subscript(index: int) returns (x: real)
      requires Valid() && 0 <= index < vectorLength
      ensures x == Contents()[index]
    {
      x := magnitudes[index];
    }

    /** Assigning through operator[]: unchecked; only magnitude `index` changes. */
    method SubscriptAssign(index: int, x: real)
      requires Valid() && 0 <= index < vectorLength
      modifies magnitudes
      ensures Valid() && Contents() == old(Contents())[index := x]
    {
      magnitudes[index] := x;
    }

    /** operator+=: on a dimension mismatch it fails (this dimension first) before
        changing anything; otherwise magnitude i becomes this[i] + v[i]. The right
        operand changes only if it shares this buffer (v += v). */
    method AddAssign(v: EuclideanVector) returns (o: Outcome)
      requires Valid() && v.Valid()
      modifies magnitudes
      ensures Valid() && v.Valid()
      ensures vectorLength != v.vectorLength ==>
                o == Fail(DimensionMismatch(vectorLength, v.vectorLength)) && Contents() == old(Contents())
      ensures vectorLength == v.vectorLength ==>
                o == Pass && |Contents()| == |old(Contents())| &&
                forall i :: 0 <= i < vectorLength ==> Contents()[i] == old(Contents()[i]) + old(v.Contents()[i])
      ensures v.magnitudes != magnitudes ==> v.Contents() == old(v.Contents())
    {
      if vectorLength != v.vectorLength {
        return Fail(DimensionMismatch(vectorLength, v.vectorLength));
      }
      for i := 0 to vectorLength
        invariant forall k :: 0 <= k < i ==> magnitudes[k] == old(magnitudes[k]) + old(v.magnitudes[k])
        invariant forall k :: i <= k < vectorLength ==>
                    magnitudes[k] == old(magnitudes[k]) && v.magnitudes[k] == old(v.magnitudes[k])
      {
        magnitudes[i] := magnitudes[i] + v.magnitudes[i];
      }
      return Pass;
    }

    /** operator-=: as operator+=, with magnitude i becoming this[i] - v[i]. */
    method SubAssign(v: EuclideanVector) returns (o: Outcome)
      requires Valid() && v.Valid()
      modifies magnitudes
      ensures Valid() && v.Valid()
      ensures vectorLength != v.vectorLength ==>
                o == Fail(DimensionMismatch(vectorLength, v.vectorLength)) && Contents() == old(Contents())
      ensures vectorLength == v.vectorLength ==>
                o == Pass && |Contents()| == |old(Contents())| &&
                forall i :: 0 <= i < vectorLength ==> Contents()[i] == old(Contents()[i]) - old(v.Contents()[i])
      ensures v.magnitudes != magnitudes ==> v.Contents() == old(v.Contents())
    {
      if vectorLength != v.vectorLength {
        return Fail(DimensionMismatch(vectorLength, v.vectorLength));
      }
      for i := 0 to vectorLength
        invariant forall k :: 0 <= k < i ==> magnitudes[k] == old(magnitudes[k]) - old(v.magnitudes[k])
        invariant forall k :: i <= k < vectorLength ==>
                    magnitudes[k] == old(magnitudes[k]) && v.magnitudes[k] == old(v.magnitudes[k])
      {
        magnitudes[i] := magnitudes[i] - v.magnitudes[i];
      }
      return Pass;
    }

    /** operator*=: never fails; every magnitude is multiplied by d. */
    method MulAssign(d: real)
      requires Valid()
      modifies magnitudes
      ensures Valid() && |Contents()| == |old(Contents())|
      ensures forall i :: 0 <= i < vectorLength ==> Contents()[i] == old(Contents()[i]) * d
    {
      for i := 0 to vectorLength
        invariant forall k :: 0 <= k < i ==> magnitudes[k] == old(magnitudes[k]) * d
        invariant forall k :: i <= k < vectorLength ==> magnitudes[k] == old(magnitudes[k])
      {
        magnitudes[i] := magnitudes[i] * d;
      }
    }

    /** operator/=: d == 0 fails and changes nothing; otherwise every magnitude is divided by d. */
    method DivAssign(d: real) returns (o: Outcome)
      requires Valid()
      modifies magnitudes
      ensures Valid() && |Contents()| == |old(Contents())|
      ensures d == 0.0 ==> o == Fail(DivisionByZero) && Contents() == old(Contents())
      ensures d != 0.0 ==> o == Pass && forall i :: 0 <= i < vectorLength ==> Contents()[i] == old(Contents()[i]) / d
    {
      if d == 0.0 {
        return Fail(DivisionByZero);
      }
      for i := 0 to vectorLength
        invariant forall k :: 0 <= k < i ==> magnitudes[k] == old(magnitudes[k]) / d
        invariant forall k :: i <= k < vectorLength ==> magnitudes[k] == old(magnitudes[k])
      {
        magnitudes[i] := magnitudes[i] / d;
      }
      return Pass;
    }

    /** operator std::vector<double>: the magnitudes, same length and order. */
    method ToVector() returns (mags: seq<real>)
      requires Valid()
      ensures mags == Contents()
    {
      mags := [];
      for i := 0 to vectorLength
        invariant mags == magnitudes[..i]
      {
        mags := mags + [magnitudes[i]];
      }
    }

    /** operator std::list<double>: the magnitudes, same length and order. */
    method ToList() returns (mags: seq<real>)
      requires Valid()
      ensures |mags| == vectorLength
      ensures forall i :: 0 <= i < vectorLength ==> mags[i] == Contents()[i]
    {
      mags := [];
      for i := 0 to vectorLength
        invariant |mags| == i
        invariant forall k :: 0 <= k < i ==> mags[k] == magnitudes[k]
      {
        mags := mags + [magnitudes[i]];
      }
    }

    /** at (read): an index outside 0 .. dimension - 1 fails with a message naming it. */
    method At(index: int) returns (r: Result<real>)
      requires Valid()
      ensures index < 0 || index >= vectorLength ==> r == Err(InvalidIndex(index))
      ensures 0 <= index < vectorLength ==> r == Ok(Contents()[index])
    {
      if index < 0 || index >= vectorLength {
        return Err(InvalidIndex(index));
      }
      return Ok(magnitudes[index]);
    }

    /** Assigning through at: an invalid index fails and changes nothing; otherwise
        only magnitude `index` changes. */
    method AtAssign(index: int, x: real) returns (o: Outcome)
      requires Valid()
      modifies magnitudes
      ensures Valid()
      ensures index < 0 || index >= vectorLength ==> o == Fail(InvalidIndex(index)) && Contents() == old(Contents())
      ensures 0 <= index < vectorLength ==> o == Pass && Contents() == old(Contents())[index := x]
    {
      if index < 0 || index >= vectorLength {
        return Fail(InvalidIndex(index));
      }
      magnitudes[index] := x;
      return Pass;
    }

    /** GetNumDimensions: the number of magnitudes. */
    function GetNumDimensions(): (n: int)
      reads this, magnitudes
      requires Valid()
      ensures n == |Contents()|
    {
      vectorLength
    }

    /** GetEuclideanNorm: fails for dimension 0; otherwise the square root of the
        sum of squares, accumulated from 0. */
    method GetEuclideanNorm(sqrt: real -> real) returns (r: Result<real>)
      requires Valid()
      ensures r == Norm(Contents(), sqrt)
    {
      if vectorLength == 0 {
        return Err(NoNorm);
      }
      var norm := 0.0;
      for i := 0 to vectorLength
        invariant norm == SumOfSquares(magnitudes[..i])
      {
        SumOfSquaresStep(magnitudes[..], i);
        norm := norm + Square(magnitudes[i]);
      }
      assert magnitudes[..vectorLength] == Contents();
      return Ok(sqrt(norm));
    }

    /** The magnitudes, each divided by a non-zero n: CreateUnitVector's loop. */
    method DividedBy(n: real) returns (mags: seq<real>)
      requires Valid() && n != 0.0
      ensures mags == DivideEach(Contents(), n)
    {
      mags := [];
      for i := 0 to vectorLength
        invariant |mags| == i
        invariant forall k :: 0 <= k < i ==> mags[k] == magnitudes[k] / n
      {
        mags := mags + [magnitudes[i] / n];
      }
    }

    /** CreateUnitVector: fails for dimension 0, then for a norm of 0; otherwise a
        new vector of the same dimension whose magnitude i is this[i] / norm. */
    method CreateUnitVector(sqrt: real -> real) returns (r: Result<EuclideanVector>)
      requires Valid()
      ensures r.Err? ==> UnitVector(Contents(), sqrt) == Err(r.error)
      ensures r.Ok? ==> UnitVector(Contents(), sqrt) == Ok(r.value.Contents())
      ensures r.Ok? ==> fresh(r.value) && fresh(r.value.magnitudes) && r.value.Valid()
    {
      if GetNumDimensions() == 0 {
        return Err(NoUnitVector);
      }
      var norm := GetEuclideanNorm(sqrt);
      var n := norm.value;
      if n == 0.0 {
        return Err(ZeroNorm);
      }
      var mags := DividedBy(n);
      assert UnitVector(Contents(), sqrt) == Ok(mags);
      var unit := new EuclideanVector.FromRange(mags, 0, |mags|);
      assert mags[0..|mags|] == mags;
      return Ok(unit);
    }
  }

  // ---------------------------------------------------------------------------
  // The friend operators.

  /** operator==: false on a dimension mismatch, otherwise true iff every pair of
      magnitudes is equal. */
  method Equals(u: EuclideanVector, v: EuclideanVector) returns (equal: bool)
    requires u.Valid() && v.Valid()
    ensures equal <==> SameMagnitudes(u.Contents(), v.Contents())
  {
    if u.vectorLength != v.vectorLength {
      return false;
    }
    for i := 0 to u.vectorLength
      invariant forall k :: 0 <= k < i ==> u.magnitudes[k] == v.magnitudes[k]
    {
      if u.magnitudes[i] != v.magnitudes[i] {
        return false;
      }
    }
    return true;
  }

  /** operator!=: exactly the negation of operator==. */
  method NotEquals(u: EuclideanVector, v: EuclideanVector) returns (different: bool)
    requires u.Valid() && v.Valid()
    ensures different <==> !SameMagnitudes(u.Contents(), v.Contents())
  {
    var equal := Equals(u, v);
    different := !equal;
  }

  /** operator+ (two vectors): Add's result, as a new vector with its own buffer. */
  method Sum(u: EuclideanVector, v: EuclideanVector) returns (r: Result<EuclideanVector>)
    requires u.Valid() && v.Valid()
    ensures r.Err? ==> Add(u.Contents(), v.Contents()) == Err(r.error)
    ensures r.Ok? ==> Add(u.Contents(), v.Contents()) == Ok(r.value.Contents())
    ensures r.Ok? ==> fresh(r.value) && fresh(r.value.magnitudes) && r.value.Valid()
  {
    if u.vectorLength != v.vectorLength {
      return Err(DimensionMismatch(u.vectorLength, v.vectorLength));
    }
    var mags: seq<real> := [];
    for i := 0 to u.vectorLength
      invariant |mags| == i
      invariant forall k :: 0 <= k < i ==> mags[k] == u.magnitudes[k] + v.magnitudes[k]
    {
      mags := mags + [u.magnitudes[i] + v.magnitudes[i]];
    }
    assert mags == Add(u.Contents(), v.Contents()).value;
    var w := new EuclideanVector.FromRange(mags, 0, |mags|);
    assert mags[0..|mags|] == mags;
    return Ok(w);
  }

  /** operator- (two vectors): Sub's result, as a new vector with its own buffer. */
  method Difference(u: EuclideanVector, v: EuclideanVector) returns (r: Result<EuclideanVector>)
    requires u.Valid() && v.Valid()
    ensures r.Err? ==> Sub(u.Contents(), v.Contents()) == Err(r.error)
    ensures r.Ok? ==> Sub(u.Contents(), v.Contents()) == Ok(r.value.Contents())
    ensures r.Ok? ==> fresh(r.value) && fresh(r.value.magnitudes) && r.value.Valid()
  {
    if u.vectorLength != v.vectorLength {
      return Err(DimensionMismatch(u.vectorLength, v.vectorLength));
    }
    var mags: seq<real> := [];
    for i := 0 to u.vectorLength
      invariant |mags| == i
      invariant forall k :: 0 <= k < i ==> mags[k] == u.magnitudes[k] - v.magnitudes[k]
    {
      mags := mags + [u.magnitudes[i] - v.magnitudes[i]];
    }
    assert mags == Sub(u.Contents(), v.Contents()).value;
    var w := new EuclideanVector.FromRange(mags, 0, |mags|);
    assert mags[0..|mags|] == mags;
    return Ok(w);
  }

  /** operator* (two vectors): the dot product, accumulated from 0. */
  method DotProduct(u: EuclideanVector, v: EuclideanVector) returns (r: Result<real>)
    requires u.Valid() && v.Valid()
    ensures r == Dot(u.Contents(), v.Contents())
  {
    if u.vectorLength != v.vectorLength {
      return Err(DimensionMismatch(u.vectorLength, v.vectorLength));
    }
    var dotProd := 0.0;
    for i := 0 to u.vectorLength
      invariant dotProd == Accumulate(0.0, Zip(u.magnitudes[..i], v.magnitudes[..i], Times))
    {
      DotStep(u.magnitudes[..], v.magnitudes[..], i);
      dotProd := dotProd + u.magnitudes[i] * v.magnitudes[i];
    }
    assert u.magnitudes[..u.vectorLength] == u.Contents();
    assert v.magnitudes[..u.vectorLength] == v.Contents();
    return Ok(dotProd);
  }

  /** operator* (vector, scalar): never fails; a new vector with every magnitude times d. */
  method Product(u: EuclideanVector, d: real) returns (w: EuclideanVector)
    requires u.Valid()
    ensures w.Contents() == Scale(u.Contents(), d)
    ensures fresh(w) && fresh(w.magnitudes) && w.Valid()
  {
    var mags: seq<real> := [];
    for i := 0 to u.vectorLength
      invariant |mags| == i
      invariant forall k :: 0 <= k < i ==> mags[k] == u.magnitudes[k] * d
    {
      mags := mags + [u.magnitudes[i] * d];
    }
    assert forall k :: 0 <= k < |mags| ==> mags[k] == Scale(u.Contents(), d)[k];
    assert mags == Scale(u.Contents(), d);
    w := new EuclideanVector.FromRange(mags, 0, |mags|);
    assert mags[0..|mags|] == mags;
  }

  /** operator* (scalar, vector): defined as the vector-by-scalar product. */
  method ProductLeft(d: real, u: EuclideanVector) returns (w: EuclideanVector)
    requires u.Valid()
    ensures w.Contents() == Scale(u.Contents(), d)
    ensures fresh(w) && fresh(w.magnitudes) && w.Valid()
  {
    w := Product(u, d);
  }

  /** operator/ (vector, scalar): Divide's result, as a new vector with its own buffer. */
  method Quotient(u: EuclideanVector, d: real) returns (r: Result<EuclideanVector>)
    requires u.Valid()
    ensures r.Err? ==> Divide(u.Contents(), d) == Err(r.error)
    ensures r.Ok? ==> Divide(u.Contents(), d) == Ok(r.value.Contents())
    ensures r.Ok? ==> fresh(r.value) && fresh(r.value.magnitudes) && r.value.Valid()
  {
    if d == 0.0 {
      return Err(DivisionByZero);
    }
    var mags: seq<real> := [];
    for i := 0 to u.vectorLength
      invariant |mags| == i
      invariant forall k :: 0 <= k < i ==> mags[k] == u.magnitudes[k] / d
    {
      mags := mags + [u.magnitudes[i] / d];
    }
    assert mags == DivideEach(u.Contents(), d);
    var w := new EuclideanVector.FromRange(mags, 0, |mags|);
    assert mags[0..|mags|] == mags;
    return Ok(w);
  }

  /** operator<<: appends "[", the magnitudes' texts separated by single spaces, and "]"
      to what the stream already holds. `show` is the stream's formatting of a double. */
  method Render(os: string, v: EuclideanVector, show: real -> string) returns (out: string)
    requires v.Valid()
    ensures out == os + "[" + Join(Texts(v.Contents(), show)) + "]"
  {
    ghost var ts := Texts(v.Contents(), show);
    out := os + "[";
    if v.vectorLength != 0 {
      var last := v.vectorLength - 1;
      for i := 0 to last
        invariant out == os + "[" + Spaced(ts[..i])
      {
        SpacedAppend(ts[..i], ts[i]);
        assert ts[..i + 1] == ts[..i] + [ts[i]];
        out := out + show(v.magnitudes[i]) + " ";
      }
      out := out + show(v.magnitudes[last]);
      SpacedThenLast(ts[..last], ts[last]);
      assert ts[..last] + [ts[last]] == ts;
    }
    out := out + "]";
  }
}
