/**
 * The integer functors of functional.hpp: stateless operators used as
 * building blocks of transform and reduce kernels. The element type T is
 * modelled as the mathematical integers and a thrust tuple as a sequence
 * (see FunctionalTuples). Boolean results that the source converts to T
 * (the sign predicates, less_than_constant) are the integers 0 and 1.
 */
module Functional {
  import opened FunctionalTuples
  import opened UnpackArgs

  /** Conversion of a C++ `bool` to the numeric result type. */
  function FromBool(b: bool): int {
    if b then 1 else 0
  }

  /** The sum of a sequence, the reference for the plus functors. */
  function Sum(s: seq<int>): (r: int)
    ensures |s| > 0 ==> r == Sum(s[..|s| - 1]) + s[|s| - 1]
  {
    if s == [] then 0
    else
      assert |s| > 1 ==> s[1..][..|s[1..]| - 1] == s[..|s| - 1][1..];
      s[0] + Sum(s[1..])
  }

  /** The sum of a short sequence, written out term by term. */
  lemma {:induction false} SumOfShort(s: seq<int>)
    requires |s| <= 5
    ensures |s| == 1 ==> Sum(s) == s[0]
    ensures |s| == 2 ==> Sum(s) == s[0] + s[1]
    ensures |s| == 3 ==> Sum(s) == s[0] + s[1] + s[2]
    ensures |s| == 4 ==> Sum(s) == s[0] + s[1] + s[2] + s[3]
    ensures |s| == 5 ==> Sum(s) == s[0] + s[1] + s[2] + s[3] + s[4]
  {
    if s != [] {
      SumOfShort(s[1..]);
    }
  }

  /** C++ integer division, which truncates toward zero: the remainder is
      zero or has the sign of the dividend, and is smaller than the divisor. */
  function TruncDiv(n: int, d: int): (q: int)
    requires d != 0
    ensures var rem := n - d * q;
      (rem == 0 || (rem < 0 <==> n < 0)) && Absolute(rem) < Absolute(d)
  {
    if n >= 0 then
      (if d > 0 then n / d else -(n / -d))
    else
      (if d > 0 then -((-n) / d) else (-n) / (-d))
  }

  /** `reverse_divides(a, b)` divides its second argument by its first. */
  function ReverseDivides(a: int, b: int): (r: int)
    requires a != 0
    ensures var rem := b - a * r;
      (rem == 0 || (rem < 0 <==> b < 0)) && Absolute(rem) < Absolute(a)
  {
    TruncDiv(b, a)
  }

  /** `duplicate(a)` is the pair (a, a). */
  function Duplicate(a: int): (r: seq<int>)
    ensures |r| == 2 && r[0] == r[1] && multiset(r) == multiset{a, a}
  {
    [a, a]
  }

  /** `minmax(a, b)`: the smaller input first, the larger second. */
  function MinMax(a: int, b: int): (r: seq<int>)
    ensures |r| == 2 && r[0] <= r[1]
    ensures multiset(r) == multiset{a, b}
  {
    [if a < b then a else b, if a < b then b else a]
  }

  /** `minmax_tuple(a, b)` orders the first components only. */
  function MinMaxTuple(a: seq<int>, b: seq<int>): (r: seq<int>)
    requires |a| >= 1 && |b| >= 1
    ensures r == MinMax(a[0], b[0])
    ensures |r| == 2 && r[0] <= r[1] && multiset(r) == multiset{a[0], b[0]}
  {
    [if a[0] < b[0] then a[0] else b[0], if a[0] < b[0] then b[0] else a[0]]
  }

  function Absolute(a: int): (r: int)
    ensures r >= 0 && (r == a || r == -a)
  {
    if a < 0 then -a else a
  }

  function Square(a: int): (r: int)
    ensures r >= 0
    ensures r == Absolute(a) * Absolute(a)
  {
    a * a
  }

  const Plus: (int, int) -> int := (x: int, y: int) => x + y

  /** `reduce_plus4`: component-wise sum of the first four components. */
  function ReducePlus4(a: seq<int>, b: seq<int>): (r: seq<int>)
    requires |a| >= 4 && |b| >= 4
    ensures r == PointWise([Plus, Plus, Plus, Plus], a, b)
  {
    [a[0] + b[0], a[1] + b[1], a[2] + b[2], a[3] + b[3]]
  }

  /** `reduce_plus4_with_dummy`: `reduce_plus4` with a fifth component that is always 0. */
  function ReducePlus4WithDummy(a: seq<int>, b: seq<int>): (r: seq<int>)
    requires |a| >= 4 && |b| >= 4
    ensures |r| == 5 && r[..4] == ReducePlus4(a, b) && r[4] == 0
  {
    [a[0] + b[0], a[1] + b[1], a[2] + b[2], a[3] + b[3], 0]
  }

  function Plus4(a: int, b: int, c: int, d: int): (r: int)
    ensures r == Sum([a, b, c, d])
  {
    SumOfShort([a, b, c, d]);
    a + b + c + d
  }

  function Plus5(a: int, b: int, c: int, d: int, e: int): (r: int)
    ensures r == Sum([a, b, c, d, e])
  {
    SumOfShort([a, b, c, d, e]);
    a + b + c + d + e
  }

  /** `plus_tuple2`: the sum of the first two components. */
  function PlusTuple2(t: seq<int>): (r: int)
    requires |t| >= 2
    ensures r == Sum(t[..2])
  {
    SumOfShort(t[..2]);
    t[0] + t[1]
  }

  /** `plus_tuple5`: the sum of the first five components. */
  function PlusTuple5(t: seq<int>): (r: int)
    requires |t| >= 5
    ensures r == Sum(t[..5])
    ensures r == UnpackQuinary(Plus5, t)
  {
    SumOfShort(t[..5]);
    t[0] + t[1] + t[2] + t[3] + t[4]
  }

  function NonPositive(t: int): (r: int)
    ensures (r == 0 || r == 1) && (r == 1 <==> t <= 0)
  {
    FromBool(t <= 0)
  }

  function Negative(t: int): (r: int)
    ensures (r == 0 || r == 1) && (r == 1 <==> t < 0)
  {
    FromBool(t < 0)
  }

  function NonNegative(t: int): (r: int)
    ensures (r == 0 || r == 1) && (r == 1 <==> t >= 0)
  {
    FromBool(t >= 0)
  }

  function Positive(t: int): (r: int)
    ensures (r == 0 || r == 1) && (r == 1 <==> t > 0)
  {
    FromBool(t > 0)
  }

  /** `less_than_constant(value)`: a functor holding the constant it compares with. */
  datatype LessThanConstant = LessThanConstant(value: int) {
    function Apply(v: int): (r: int)
      ensures (r == 0 || r == 1) && (r == 1 <==> v < value)
    {
      FromBool(v < value)
    }
  }

  // Properties relating the functors to each other.

  lemma AbsoluteIdempotent(a: int)
    ensures Absolute(Absolute(a)) == Absolute(a)
  {
  }

  lemma SquareOfNegation(a: int)
    ensures Square(-a) == Square(a)
  {
  }

  /** Duplicating a value and unpacking the pair calls a binary functor on (a, a). */
  lemma DuplicateThenUnpack<R>(f: (int, int) -> R, a: int)
    ensures UnpackBinary(f, Duplicate(a)) == f(a, a)
  {
  }

  /** `minmax` of a value with itself is its duplicate. */
  lemma MinMaxOfDuplicate(a: int)
    ensures MinMax(a, a) == Duplicate(a)
  {
  }

  lemma MinMaxSymmetric(a: int, b: int)
    ensures MinMax(a, b) == MinMax(b, a)
  {
  }

  /** The other components of the tuples never influence `minmax_tuple`. */
  lemma MinMaxTupleIgnoresTail(a: seq<int>, b: seq<int>, a': seq<int>, b': seq<int>)
    requires |a| >= 1 && |b| >= 1 && |a'| >= 1 && |b'| >= 1
    requires a[0] == a'[0] && b[0] == b'[0]
    ensures MinMaxTuple(a, b) == MinMaxTuple(a', b')
  {
  }

  /** `reduce_plus4` is associative and commutative, so it is a valid
      operator for a parallel reduction. */
  lemma ReducePlus4Associative(a: seq<int>, b: seq<int>, c: seq<int>)
    requires |a| >= 4 && |b| >= 4 && |c| >= 4
    ensures ReducePlus4(ReducePlus4(a, b), c) == ReducePlus4(a, ReducePlus4(b, c))
  {
    var fs := [Plus, Plus, Plus, Plus];
    assert Associative(Plus);
    PointWiseAssociative(fs, a, b, c);
  }

  lemma ReducePlus4Commutative(a: seq<int>, b: seq<int>)
    requires |a| >= 4 && |b| >= 4
    ensures ReducePlus4(a, b) == ReducePlus4(b, a)
  {
    var fs := [Plus, Plus, Plus, Plus];
    assert Commutative(Plus);
    PointWiseCommutative(fs, a, b);
  }

  /** The dummy component keeps `reduce_plus4_with_dummy` associative. */
  lemma ReducePlus4WithDummyAssociative(a: seq<int>, b: seq<int>, c: seq<int>)
    requires |a| >= 4 && |b| >= 4 && |c| >= 4
    ensures ReducePlus4WithDummy(ReducePlus4WithDummy(a, b), c)
         == ReducePlus4WithDummy(a, ReducePlus4WithDummy(b, c))
  {
  }

  /** `plus_tuple5` is `plus5` behind the quinary unpacker. */
  lemma PlusTuple5IsUnpackedPlus5(x0: int, x1: int, x2: int, x3: int, x4: int)
    ensures PlusTuple5([x0, x1, x2, x3, x4]) == Plus5(x0, x1, x2, x3, x4)
  {
  }

  /** Each "non" predicate is the negation of its strict counterpart. */
  lemma SignComplements(t: int)
    ensures NonPositive(t) == 1 - Positive(t)
    ensures NonNegative(t) == 1 - Negative(t)
    ensures Negative(t) + NonNegative(t) == 1
    ensures Positive(t) + NonPositive(t) == 1
  {
  }

  /** `less_than_constant(c)(v)` holds exactly when v < c, i.e. when v - c is negative. */
  lemma LessThanConstantIsNegativeDifference(c: int, v: int)
    ensures LessThanConstant(c).Apply(v) == Negative(v - c)
    ensures LessThanConstant(c).Apply(v) == 1 <==> v < c
  {
  }

  /** On non-negative operands truncating and Euclidean division agree. */
  lemma TruncDivNonNegative(n: int, d: int)
    requires n >= 0 && d > 0
    ensures TruncDiv(n, d) == n / d
  {
  }

  /** Truncating division rounds toward zero: negating the dividend negates the quotient. */
  lemma TruncDivOddInDividend(n: int, d: int)
    requires d != 0
    ensures TruncDiv(-n, d) == -TruncDiv(n, d)
  {
  }
}
