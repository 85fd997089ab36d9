/**
 * The component-wise tuple reducers `reduce2pair` and `reduce2` ... `reduce9`.
 *
 * A thrust tuple is modelled as a sequence whose element i is `get<i>`; all
 * components share one element type (the source lets every component have
 * its own functor result type). `reduceN` holds N default-constructed binary
 * functors and combines two tuples position by position; the generic
 * combiner `PointWise` takes the functors as a sequence, so that `reduceN`
 * is `PointWise` with a sequence of length N.
 */
module FunctionalTuples {

  /** The generic combiner: component i of the result is fs[i](a[i], b[i]).
      Components of `a` and `b` beyond |fs| are never read, as in the source,
      where `get<i>` is only applied for i < N. */
  function PointWise<T>(fs: seq<(T, T) -> T>, a: seq<T>, b: seq<T>): (r: seq<T>)
    requires |fs| <= |a| && |fs| <= |b|
    ensures |r| == |fs|
    ensures forall i :: 0 <= i < |fs| ==> r[i] == fs[i](a[i], b[i])
  {
    if fs == [] then [] else [fs[0](a[0], b[0])] + PointWise(fs[1..], a[1..], b[1..])
  }

  /** `reduce2pair`: like `reduce2`, but the two tuples arrive as one pair. */
  function Reduce2Pair<T>(f0: (T, T) -> T, f1: (T, T) -> T, p: (seq<T>, seq<T>)): (r: seq<T>)
    requires |p.0| >= 2 && |p.1| >= 2
    ensures r == Reduce2(f0, f1, p.0, p.1)
  {
    [f0(p.0[0], p.1[0]), f1(p.0[1], p.1[1])]
  }

  function Reduce2<T>(f0: (T, T) -> T, f1: (T, T) -> T, a: seq<T>, b: seq<T>): (r: seq<T>)
    requires |a| >= 2 && |b| >= 2
    ensures r == PointWise([f0, f1], a, b)
  {
    [f0(a[0], b[0]), f1(a[1], b[1])]
  }

  function Reduce3<T>(f0: (T, T) -> T, f1: (T, T) -> T, f2: (T, T) -> T,
                      a: seq<T>, b: seq<T>): (r: seq<T>)
    requires |a| >= 3 && |b| >= 3
    ensures r == PointWise([f0, f1, f2], a, b)
  {
    [f0(a[0], b[0]), f1(a[1], b[1]), f2(a[2], b[2])]
  }

  function Reduce4<T>(f0: (T, T) -> T, f1: (T, T) -> T, f2: (T, T) -> T, f3: (T, T) -> T,
                      a: seq<T>, b: seq<T>): (r: seq<T>)
    requires |a| >= 4 && |b| >= 4
    ensures r == PointWise([f0, f1, f2, f3], a, b)
  {
    [f0(a[0], b[0]), f1(a[1], b[1]), f2(a[2], b[2]), f3(a[3], b[3])]
  }

  function Reduce5<T>(f0: (T, T) -> T, f1: (T, T) -> T, f2: (T, T) -> T, f3: (T, T) -> T,
                      f4: (T, T) -> T,
                      a: seq<T>, b: seq<T>): (r: seq<T>)
    requires |a| >= 5 && |b| >= 5
    ensures r == PointWise([f0, f1, f2, f3, f4], a, b)
  {
    [f0(a[0], b[0]), f1(a[1], b[1]), f2(a[2], b[2]), f3(a[3], b[3]), f4(a[4], b[4])]
  }

  function Reduce6<T>(f0: (T, T) -> T, f1: (T, T) -> T, f2: (T, T) -> T, f3: (T, T) -> T,
                      f4: (T, T) -> T, f5: (T, T) -> T,
                      a: seq<T>, b: seq<T>): (r: seq<T>)
    requires |a| >= 6 && |b| >= 6
    ensures r == PointWise([f0, f1, f2, f3, f4, f5], a, b)
  {
    [f0(a[0], b[0]), f1(a[1], b[1]), f2(a[2], b[2]), f3(a[3], b[3]), f4(a[4], b[4]),
     f5(a[5], b[5])]
  }

  function Reduce7<T>(f0: (T, T) -> T, f1: (T, T) -> T, f2: (T, T) -> T, f3: (T, T) -> T,
                      f4: (T, T) -> T, f5: (T, T) -> T, f6: (T, T) -> T,
                      a: seq<T>, b: seq<T>): (r: seq<T>)
    requires |a| >= 7 && |b| >= 7
    ensures r == PointWise([f0, f1, f2, f3, f4, f5, f6], a, b)
  {
    [f0(a[0], b[0]), f1(a[1], b[1]), f2(a[2], b[2]), f3(a[3], b[3]), f4(a[4], b[4]),
     f5(a[5], b[5]), f6(a[6], b[6])]
  }

  function Reduce8<T>(f0: (T, T) -> T, f1: (T, T) -> T, f2: (T, T) -> T, f3: (T, T) -> T,
                      f4: (T, T) -> T, f5: (T, T) -> T, f6: (T, T) -> T, f7: (T, T) -> T,
                      a: seq<T>, b: seq<T>): (r: seq<T>)
    requires |a| >= 8 && |b| >= 8
    ensures r == PointWise([f0, f1, f2, f3, f4, f5, f6, f7], a, b)
  {
    [f0(a[0], b[0]), f1(a[1], b[1]), f2(a[2], b[2]), f3(a[3], b[3]), f4(a[4], b[4]),
     f5(a[5], b[5]), f6(a[6], b[6]), f7(a[7], b[7])]
  }

  function Reduce9<T>(f0: (T, T) -> T, f1: (T, T) -> T, f2: (T, T) -> T, f3: (T, T) -> T,
                      f4: (T, T) -> T, f5: (T, T) -> T, f6: (T, T) -> T, f7: (T, T) -> T,
                      f8: (T, T) -> T,
                      a: seq<T>, b: seq<T>): (r: seq<T>)
    requires |a| >= 9 && |b| >= 9
    ensures r == PointWise([f0, f1, f2, f3, f4, f5, f6, f7, f8], a, b)
  {
    [f0(a[0], b[0]), f1(a[1], b[1]), f2(a[2], b[2]), f3(a[3], b[3]), f4(a[4], b[4]),
     f5(a[5], b[5]), f6(a[6], b[6]), f7(a[7], b[7]), f8(a[8], b[8])]
  }

  ghost predicate Associative<T(!new)>(f: (T, T) -> T) {
    forall x, y, z :: f(f(x, y), z) == f(x, f(y, z))
  }

  ghost predicate Commutative<T(!new)>(f: (T, T) -> T) {
    forall x, y :: f(x, y) == f(y, x)
  }

  /** Component i of the result is determined by component i of the inputs. */
  lemma PointWiseIsLocal<T>(fs: seq<(T, T) -> T>, a: seq<T>, b: seq<T>,
                            a': seq<T>, b': seq<T>, i: nat)
    requires |fs| <= |a| && |fs| <= |b| && |fs| <= |a'| && |fs| <= |b'|
    requires i < |fs| && a[i] == a'[i] && b[i] == b'[i]
    ensures PointWise(fs, a, b)[i] == PointWise(fs, a', b')[i]
  {
  }

  /** Components beyond the arity of the reducer do not matter. */
  lemma PointWiseIgnoresExtra<T>(fs: seq<(T, T) -> T>, a: seq<T>, b: seq<T>)
    requires |fs| <= |a| && |fs| <= |b|
    ensures PointWise(fs, a, b) == PointWise(fs, a[..|fs|], b[..|fs|])
  {
  }

  /** A reducer over fs + gs is the reducer over fs followed by the reducer
      over gs applied to the remaining components. */
  lemma PointWiseAppend<T>(fs: seq<(T, T) -> T>, gs: seq<(T, T) -> T>, a: seq<T>, b: seq<T>)
    requires |fs| + |gs| <= |a| && |fs| + |gs| <= |b|
    ensures PointWise(fs + gs, a, b) == PointWise(fs, a, b) + PointWise(gs, a[|fs|..], b[|fs|..])
  {
  }

  /** Associativity is inherited from the components. */
  lemma PointWiseAssociative<T(!new)>(fs: seq<(T, T) -> T>, a: seq<T>, b: seq<T>, c: seq<T>)
    requires forall i :: 0 <= i < |fs| ==> Associative(fs[i])
    requires |fs| <= |a| && |fs| <= |b| && |fs| <= |c|
    ensures PointWise(fs, PointWise(fs, a, b), c) == PointWise(fs, a, PointWise(fs, b, c))
  {
  }

  /** Commutativity is inherited from the components. */
  lemma PointWiseCommutative<T(!new)>(fs: seq<(T, T) -> T>, a: seq<T>, b: seq<T>)
    requires forall i :: 0 <= i < |fs| ==> Commutative(fs[i])
    requires |fs| <= |a| && |fs| <= |b|
    ensures PointWise(fs, a, b) == PointWise(fs, b, a)
  {
  }
}
