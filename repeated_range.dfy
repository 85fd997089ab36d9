/**
 * `thrust::repeated_range`: a permutation view of a source range in which
 * each element appears `repeats` times in a row. `begin()` composes a
 * counting iterator starting at 0, a transform by `repeat_functor`
 * (k |-> k / repeats) and a permutation iterator over the source, so the
 * element at position k is `first[k / repeats]`. Positions come from the
 * counting iterator and are therefore non-negative, where C++'s truncating
 * division and Dafny's division agree.
 */
module RepeatedRange {

  /** `repeat_functor(repeats)(k)`: the source position that position k reads. */
  function RepeatIndex(repeats: nat, k: nat): (j: nat)
    requires repeats > 0
    ensures j * repeats <= k < j * repeats + repeats
  {
    k / repeats
  }

  /** Dereferencing `begin() + k`: the source element at `repeat_functor(k)`. */
  function Element<T>(first: seq<T>, repeats: nat, k: nat): (x: T)
    requires repeats > 0 && k < |first| * repeats
    ensures x in first
  {
    BlockBound(repeats, k, |first|);
    first[RepeatIndex(repeats, k)]
  }

  /** A position below n * repeats reads a source position below n. */
  lemma BlockBound(repeats: nat, k: nat, n: nat)
    requires repeats > 0 && k < n * repeats
    ensures RepeatIndex(repeats, k) < n
  {
    var j := RepeatIndex(repeats, k);
    if j >= n {
      MulLe(n, j, repeats);
      assert false;
    }
  }

  lemma MulLe(a: nat, b: nat, c: nat)
    requires a <= b
    ensures a * c <= b * c
  {
    var d: nat := b - a;
    assert b * c == a * c + d * c;
  }

  /** `repeats` copies of x. */
  function Replicate<T>(x: T, repeats: nat): (r: seq<T>)
    ensures |r| == repeats && forall i :: 0 <= i < repeats ==> r[i] == x
  {
    seq(repeats, _ => x)
  }

  /** The repeated range as the header describes it: every source element
      replaced by `repeats` copies of itself, one block after the other. */
  function Repeated<T>(first: seq<T>, repeats: nat): (r: seq<T>)
    requires repeats > 0
    ensures |r| == |first| * repeats
  {
    if first == [] then []
    else
      var rest := Repeated(first[1..], repeats);
      assert |first| * repeats == (|first| - 1) * repeats + repeats;
      Replicate(first[0], repeats) + rest
  }

  /** The block structure agrees with the iterator: position k of the
      repeated range is the element `begin() + k` dereferences. */
  lemma {:induction false} RepeatedElement<T>(first: seq<T>, repeats: nat, k: nat)
    requires repeats > 0 && k < |first| * repeats
    ensures Repeated(first, repeats)[k] == Element(first, repeats, k)
  {
    if k < repeats {
      BlockIndex(repeats, 0, k);
    } else {
      var k' := k - repeats;
      assert k' < |first[1..]| * repeats by {
        assert |first| * repeats == |first[1..]| * repeats + repeats;
      }
      RepeatedElement(first[1..], repeats, k');
      ShiftBlock(repeats, k);
      BlockBound(repeats, k, |first|);
      assert Repeated(first, repeats)[k] == Repeated(first[1..], repeats)[k'];
      assert Element(first[1..], repeats, k') == first[RepeatIndex(repeats, k)];
    }
  }

  /** Moving one block to the right moves the source position by one. */
  lemma ShiftBlock(repeats: nat, k: nat)
    requires repeats > 0 && repeats <= k
    ensures RepeatIndex(repeats, k) == RepeatIndex(repeats, k - repeats) + 1
  {
    var j := RepeatIndex(repeats, k - repeats);
    assert (j + 1) * repeats == j * repeats + repeats;
    assert (j + 2) * repeats == (j + 1) * repeats + repeats;
    BlockIndex(repeats, j + 1, k);
  }

  /** Every position of block j, i.e. in [j * repeats, (j + 1) * repeats), reads source position j. */
  lemma BlockIndex(repeats: nat, j: nat, k: nat)
    requires repeats > 0 && j * repeats <= k < (j + 1) * repeats
    ensures RepeatIndex(repeats, k) == j
  {
    var q := RepeatIndex(repeats, k);
    if q < j {
      MulLe(q + 1, j, repeats);
      assert false;
    } else if q > j {
      MulLe(j + 1, q, repeats);
      assert false;
    }
  }

  /** The index map is monotone: later positions never read earlier source elements. */
  lemma RepeatIndexMonotone(repeats: nat, k1: nat, k2: nat)
    requires repeats > 0 && k1 <= k2
    ensures RepeatIndex(repeats, k1) <= RepeatIndex(repeats, k2)
  {
    var j1, j2 := RepeatIndex(repeats, k1), RepeatIndex(repeats, k2);
    if j1 > j2 {
      MulLe(j2 + 1, j1, repeats);
      assert false;
    }
  }

  /** Block j of the repeated range is `repeats` copies of source element j. */
  lemma BlockIsReplicated<T>(first: seq<T>, repeats: nat, j: nat)
    requires repeats > 0 && j < |first|
    ensures (j + 1) * repeats <= |Repeated(first, repeats)|
    ensures Repeated(first, repeats)[j * repeats .. (j + 1) * repeats] == Replicate(first[j], repeats)
  {
    var r := Repeated(first, repeats);
    MulLe(j + 1, |first|, repeats);
    var block := r[j * repeats .. (j + 1) * repeats];
    forall i | 0 <= i < repeats
      ensures block[i] == first[j]
    {
      RepeatedElement(first, repeats, j * repeats + i);
      BlockIndex(repeats, j, j * repeats + i);
    }
  }

  /** With one repeat the range is the source itself. */
  lemma RepeatOnce<T>(first: seq<T>)
    ensures Repeated(first, 1) == first
  {
  }

  /** The examples of the header comment, for one, two and three repeats. */
  lemma HeaderExampleOnce()
    ensures Repeated([0, 1, 2, 3], 1) == [0, 1, 2, 3]
  {
    RepeatOnce([0, 1, 2, 3]);
  }

  lemma HeaderExampleTwice()
    ensures Repeated([0, 1, 2, 3], 2) == [0, 0, 1, 1, 2, 2, 3, 3]
  {
    var two := Repeated([0, 1, 2, 3], 2);
    forall k | 0 <= k < 8 ensures two[k] == [0, 0, 1, 1, 2, 2, 3, 3][k] {
      RepeatedElement([0, 1, 2, 3], 2, k);
    }
  }

  lemma HeaderExampleThrice()
    ensures Repeated([0, 1, 2, 3], 3) == [0, 0, 0, 1, 1, 1, 2, 2, 2, 3, 3, 3]
  {
    var three := Repeated([0, 1, 2, 3], 3);
    forall k | 0 <= k < 12 ensures three[k] == [0, 0, 0, 1, 1, 1, 2, 2, 2, 3, 3, 3][k] {
      RepeatedElement([0, 1, 2, 3], 3, k);
    }
  }
}
