/** The exception type thrown by EuclideanVector, the exact messages it carries,
    and the decimal rendering of `int` that two of those messages embed. */
module Errors {

  /** EuclideanVectorError: an exception that stores the message it was built with. */
  datatype EuclideanVectorError = EuclideanVectorError(message: string)
  {
    /** what(): the stored message; building an error from it gives this error back. */
    function What(): (r: string)
      ensures EuclideanVectorError(r) == this
    {
      message
    }
  }

  /** The outcome of an operation that returns a value or throws. */
  datatype Result<+T> = Ok(value: T) | Err(error: EuclideanVectorError)

  /** The outcome of an in-place operation that completes or throws. */
  datatype Outcome = Pass | Fail(error: EuclideanVectorError)

  datatype Option<+T> = None | Some(value: T)

  // ---------------------------------------------------------------------------
  // Decimal rendering of int, as `ostringstream << int` writes it.

  predicate IsDigit(c: char) {
    '0' <= c <= '9'
  }

  predicate AllDigits(s: string) {
    forall k :: 0 <= k < |s| ==> IsDigit(s[k])
  }

  function DigitChar(d: nat): (c: char)
    requires d < 10
    ensures IsDigit(c) && c as int - '0' as int == d
  {
    ('0' as int + d) as char
  }

  /** The value of a string of decimal digits, most significant first. */
  function DigitsValue(s: string): nat
    requires AllDigits(s)
  {
    if s == [] then 0 else DigitsValue(s[..|s| - 1]) * 10 + (s[|s| - 1] as int - '0' as int)
  }

  /** Reads back what IntToString writes: an optional minus sign, then digits. */
  function ParseInt(s: string): int
    requires |s| > 0 && (s[0] == '-' ==> AllDigits(s[1..])) && (s[0] != '-' ==> AllDigits(s))
  {
    if s[0] == '-' then -(DigitsValue(s[1..]) as int) else DigitsValue(s)
  }

  /** The shortest decimal digits of n: no leading zero unless n is 0 itself, and
      the digit string reads back as n. */
  function NatToString(n: nat): (s: string)
    ensures |s| > 0 && AllDigits(s) && DigitsValue(s) == n
    ensures n > 0 ==> s[0] != '0'
    ensures |s| == 1 || s[0] != '0'
  {
    if n < 10 then [DigitChar(n)]
    else
      var s := NatToString(n / 10) + [DigitChar(n % 10)];
      assert s[..|s| - 1] == NatToString(n / 10);
      s
  }

  /** `ostringstream << i`: a minus sign for negative values, then the digits of |i|.
      Every character is a digit or '-', and the text reads back as i. */
  function IntToString(i: int): (s: string)
    ensures |s| > 0 && (s[0] == '-' ==> AllDigits(s[1..])) && (s[0] != '-' ==> AllDigits(s))
    ensures forall k :: 0 <= k < |s| ==> IsDigit(s[k]) || s[k] == '-'
    ensures ParseInt(s) == i
    ensures (s[0] == '-') <==> i < 0
    ensures i < 0 ==> |s| > 1 && s[1] != '0'
    ensures i >= 0 ==> |s| == 1 || s[0] != '0'
  {
    if i < 0 then
      var s := "-" + NatToString(-i);
      assert s[1..] == NatToString(-i);
      s
    else NatToString(i)
  }

  // ---------------------------------------------------------------------------
  // The messages, word for word.

  const MismatchPrefix := "Dimensions of LHS("
  const MismatchMiddle := ") and RHS("
  const MismatchSuffix := ") do not match"
  const IndexPrefix := "Index "
  const IndexSuffix := " is not valid for " + "this EuclideanVector object"

  /** The text of s before the first `delim`, or all of s when there is none. */
  function UpTo(s: string, delim: char): (t: string)
    ensures |t| <= |s| && t == s[..|t|] && delim !in t
    ensures |t| < |s| ==> s[|t|] == delim
  {
    if s == [] || s[0] == delim then [] else [s[0]] + UpTo(s[1..], delim)
  }

  /** Reads an optional minus sign and decimal digits, as IntToString writes them. */
  function Decimal(s: string): Option<int> {
    if |s| > 0 && (s[0] == '-' ==> AllDigits(s[1..])) && (s[0] != '-' ==> AllDigits(s))
    then Some(ParseInt(s)) else None
  }

  /** A field free of the delimiter, followed by text starting with it, is read back by UpTo. */
  lemma {:induction false} UpToField(a: string, x: string, delim: char)
    requires delim !in a && |x| > 0 && x[0] == delim
    ensures UpTo(a + x, delim) == a
  {
    if a != [] {
      assert (a + x)[1..] == a[1..] + x;
      UpToField(a[1..], x, delim);
      assert a == [a[0]] + a[1..];
    }
  }

  /** Reads a dimension-mismatch message back: the prefix, LHS up to ')', the
      middle text, RHS up to ')', and the suffix; None for any other text. */
  function ReadMismatch(msg: string): Option<(int, int)> {
    var p := |MismatchPrefix|;
    if |msg| < p || msg[..p] != MismatchPrefix then None
    else
      var rest := msg[p..];
      var a := UpTo(rest, ')');
      var after := rest[|a|..];
      if |after| < |MismatchMiddle| || after[..|MismatchMiddle|] != MismatchMiddle then None
      else
        var tail := after[|MismatchMiddle|..];
        var b := UpTo(tail, ')');
        if tail[|b|..] != MismatchSuffix || Decimal(a).None? || Decimal(b).None? then None
        else Some((Decimal(a).value, Decimal(b).value))
  }

  /** Reads an invalid-index message back: the prefix, the index up to the first
      space, and the suffix; None for any other text. */
  function ReadIndex(msg: string): Option<int> {
    var p := |IndexPrefix|;
    if |msg| < p || msg[..p] != IndexPrefix then None
    else
      var rest := msg[p..];
      var a := UpTo(rest, ' ');
      if rest[|a|..] != IndexSuffix || Decimal(a).None? then None else Decimal(a)
  }

  lemma MismatchReadsBack(a: string, b: string)
    requires ')' !in a && ')' !in b && Decimal(a).Some? && Decimal(b).Some?
    ensures ReadMismatch(MismatchPrefix + a + MismatchMiddle + b + MismatchSuffix)
         == Some((Decimal(a).value, Decimal(b).value))
  {
    var m := MismatchPrefix + a + MismatchMiddle + b + MismatchSuffix;
    var p := |MismatchPrefix|;
    assert m[..p] == MismatchPrefix;
    var rest := m[p..];
    assert rest == a + (MismatchMiddle + b + MismatchSuffix);
    UpToField(a, MismatchMiddle + b + MismatchSuffix, ')');
    var after := rest[|a|..];
    assert after == MismatchMiddle + (b + MismatchSuffix);
    assert after[..|MismatchMiddle|] == MismatchMiddle;
    var tail := after[|MismatchMiddle|..];
    assert tail == b + MismatchSuffix;
    UpToField(b, MismatchSuffix, ')');
    assert tail[|b|..] == MismatchSuffix;
  }

  lemma IndexReadsBack(a: string)
    requires ' ' !in a && Decimal(a).Some?
    ensures ReadIndex(IndexPrefix + a + IndexSuffix) == Decimal(a)
  {
    var m := IndexPrefix + a + IndexSuffix;
    var p := |IndexPrefix|;
    assert m[..p] == IndexPrefix;
    var rest := m[p..];
    assert rest == a + IndexSuffix;
    UpToField(a, IndexSuffix, ' ');
    assert rest[|a|..] == IndexSuffix;
  }

  /** The dimension-mismatch message, LHS first; it reads back as (lhs, rhs). */
  function DimensionMismatch(lhs: int, rhs: int): (r: EuclideanVectorError)
    ensures ReadMismatch(r.message) == Some((lhs, rhs))
  {
    var a, b := IntToString(lhs), IntToString(rhs);
    NoDelimiterInDecimal(lhs, ')');
    NoDelimiterInDecimal(rhs, ')');
    MismatchReadsBack(a, b);
    EuclideanVectorError(MismatchPrefix + a + MismatchMiddle + b + MismatchSuffix)
  }

  /** The invalid-index message; it reads back as the index. */
  function InvalidIndex(index: int): (r: EuclideanVectorError)
    ensures ReadIndex(r.message) == Some(index)
  {
    var a := IntToString(index);
    NoDelimiterInDecimal(index, ' ');
    IndexReadsBack(a);
    EuclideanVectorError(IndexPrefix + a + IndexSuffix)
  }

  const DivisionByZero := EuclideanVectorError("Invalid vector division by 0")
  const NoNorm := EuclideanVectorError("EuclideanVector with no " + "dimensions does not have a norm")
  const NoUnitVector := EuclideanVectorError("EuclideanVector with no " + "dimensions does not have a unit vector")
  const ZeroNorm := EuclideanVectorError("EuclideanVector with euclidean " + "normal of 0 does not have a unit vector")

  // ---------------------------------------------------------------------------
  // Properties of the messages.

  lemma NoDelimiterInDecimal(i: int, delim: char)
    requires delim != '-' && !IsDigit(delim)
    ensures delim !in IntToString(i)
  {
    var s := IntToString(i);
    assert forall k :: 0 <= k < |s| ==> s[k] != delim;
  }

  /** The mismatch message names both dimensions: different dimension pairs
      never produce the same message, since each message reads back as its pair. */
  lemma MismatchMessageDeterminesDimensions(lhs: int, rhs: int, lhs': int, rhs': int)
    requires DimensionMismatch(lhs, rhs) == DimensionMismatch(lhs', rhs')
    ensures lhs == lhs' && rhs == rhs'
  {
  }

  /** The index message names the index: different indices give different messages. */
  lemma IndexMessageDeterminesIndex(index: int, index': int)
    requires InvalidIndex(index) == InvalidIndex(index')
    ensures index == index'
  {
  }

  /** A one-digit number is written as that digit. */
  lemma SingleDigit(n: nat)
    requires n < 10
    ensures IntToString(n) == [DigitChar(n)]
  {
  }

  lemma MinusOne()
    ensures IntToString(-1) == "-1"
  {
    assert NatToString(1) == "1";
  }

  /** The mismatch message the test suite expects, character for character. */
  lemma ExpectedMismatchMessage()
    ensures DimensionMismatch(5, 4).What() == "Dimensions of LHS(" + "5" + ") and RHS(" + "4" + ") do not match"
  {
    SingleDigit(5);
    SingleDigit(4);
  }

  /** The index messages the test suite expects, character for character. */
  lemma ExpectedNegativeIndexMessage()
    ensures InvalidIndex(-1).What() == "Index " + "-1" + " is not valid for " + "this EuclideanVector object"
  {
    MinusOne();
  }

  lemma ExpectedIndexMessage()
    ensures InvalidIndex(5).What() == "Index " + "5" + " is not valid for " + "this EuclideanVector object"
  {
    SingleDigit(5);
  }
}
