/**
 * The argument unpackers of unpack_args.hpp: each adapter stores an n-ary
 * functor and, applied to one tuple, forwards components 0 .. n-1 in order.
 * The adapter's result type is the wrapped functor's result type R.
 * A tuple is a sequence (see FunctionalTuples); a longer tuple is accepted and
 * its extra components are ignored, as `get<i>` only reads the first n.
 */
module UnpackArgs {

  function UnpackBinary<A, R>(f: (A, A) -> R, t: seq<A>): (r: R)
    requires |t| >= 2
  {
    f(t[0], t[1])
  }

  function UnpackTernary<A, R>(f: (A, A, A) -> R, t: seq<A>): (r: R)
    requires |t| >= 3
  {
    f(t[0], t[1], t[2])
  }

  function UnpackQuaternary<A, R>(f: (A, A, A, A) -> R, t: seq<A>): (r: R)
    requires |t| >= 4
  {
    f(t[0], t[1], t[2], t[3])
  }

  function UnpackQuinary<A, R>(f: (A, A, A, A, A) -> R, t: seq<A>): (r: R)
    requires |t| >= 5
  {
    f(t[0], t[1], t[2], t[3], t[4])
  }

  /** Unpacking a tuple built from the arguments is calling the functor on them. */
  lemma UnpackBinaryOfTuple<A, R>(f: (A, A) -> R, x0: A, x1: A)
    ensures UnpackBinary(f, [x0, x1]) == f(x0, x1)
  {
  }

  lemma UnpackTernaryOfTuple<A, R>(f: (A, A, A) -> R, x0: A, x1: A, x2: A)
    ensures UnpackTernary(f, [x0, x1, x2]) == f(x0, x1, x2)
  {
  }

  lemma UnpackQuaternaryOfTuple<A, R>(f: (A, A, A, A) -> R, x0: A, x1: A, x2: A, x3: A)
    ensures UnpackQuaternary(f, [x0, x1, x2, x3]) == f(x0, x1, x2, x3)
  {
  }

  lemma UnpackQuinaryOfTuple<A, R>(f: (A, A, A, A, A) -> R, x0: A, x1: A, x2: A, x3: A, x4: A)
    ensures UnpackQuinary(f, [x0, x1, x2, x3, x4]) == f(x0, x1, x2, x3, x4)
  {
  }

  /** Only the first n components reach the functor. */
  lemma UnpackIgnoresExtra<A, R>(f2: (A, A) -> R, f3: (A, A, A) -> R, f4: (A, A, A, A) -> R,
                                 f5: (A, A, A, A, A) -> R, t: seq<A>)
    requires |t| >= 5
    ensures UnpackBinary(f2, t) == UnpackBinary(f2, t[..2])
    ensures UnpackTernary(f3, t) == UnpackTernary(f3, t[..3])
    ensures UnpackQuaternary(f4, t) == UnpackQuaternary(f4, t[..4])
    ensures UnpackQuinary(f5, t) == UnpackQuinary(f5, t[..5])
  {
  }
}
