/**
 * Device vectors and the windowed views over them.
 *
 * The device-vector extension module (`from_array`, `view_from_vector` and
 * item assignment on a view) is not part of this model. Here a vector is a
 * fixed-length buffer, an `array<int>`; a view borrows one vector and an
 * inclusive window [firstI, lastI] of it, with size lastI - firstI + 1;
 * creating a view whose window does not lie inside the vector fails with a
 * bounds error; writing to rows of a view writes the vector at offset
 * firstI, either one value broadcast to every row or a sequence whose
 * length must equal the number of rows (a shape error otherwise). That a
 * write to rows outside the view is refused with a bounds error, and not
 * let through to the vector, is an assumption of this model about that
 * module.
 */
module DeviceVectors {
  import opened Wrappers

  datatype ViewError = BoundsError | ShapeError

  datatype DeviceVectorView = DeviceVectorView(vector: array<int>, firstI: int, lastI: int) {
    function Size(): int {
      lastI - firstI + 1
    }

    /** The window lies inside the vector; it is empty when lastI = firstI - 1. */
    predicate WithinVector() {
      Fits(vector, firstI, lastI)
    }
  }

  predicate Fits(v: array<int>, firstI: int, lastI: int) {
    0 <= firstI <= lastI + 1 <= v.Length
  }

  /** `dv.from_array(xs)`: a new vector holding a copy of the host data. */
  method FromArray(xs: seq<int>) returns (v: array<int>)
    ensures fresh(v) && v[..] == xs
  {
    v := new int[|xs|](i requires 0 <= i < |xs| => xs[i]);
  }

  /** `dv.view_from_vector(v)`: the full-extent view. */
  function FullView(v: array<int>): (w: DeviceVectorView)
    ensures w.vector == v && w.WithinVector() && w.Size() == v.Length && w.firstI == 0
  {
    DeviceVectorView(v, 0, v.Length - 1)
  }

  /** `dv.view_from_vector(v, first_i, last_i)`. */
  function ViewFromVector(v: array<int>, firstI: int, lastI: int): (r: Result<DeviceVectorView, ViewError>)
    ensures r.Ok? <==> Fits(v, firstI, lastI)
    ensures r.Ok? ==> r.value.vector == v && r.value.WithinVector()
                      && r.value.firstI == firstI && r.value.Size() == lastI - firstI + 1
    ensures r.Err? ==> r.error == BoundsError
  {
    if Fits(v, firstI, lastI) then Ok(DeviceVectorView(v, firstI, lastI)) else Err(BoundsError)
  }

  /** The rows [lo, hi) of a view, counted from its first row. */
  datatype Rows = Rows(lo: int, hi: int) {
    function Count(): int { hi - lo }
  }

  /** What is written: one value for every row, or one value per row. */
  datatype Source = Broadcast(x: int) | Values(xs: seq<int>) {
    function At(i: int): int
      requires Values? ==> 0 <= i < |xs|
    {
      if Broadcast? then x else xs[i]
    }
  }

  /** The check the view makes before writing: the rows must lie inside the
      window (assumed, see above), and a sequence must have one value per row. */
  function CheckWrite(w: DeviceVectorView, rows: Rows, src: Source): (r: Option<ViewError>)
    ensures r.None? <==> 0 <= rows.lo <= rows.hi <= w.Size() && (src.Values? ==> |src.xs| == rows.Count())
    ensures r == Some(ShapeError) ==> src.Values? && 0 <= rows.lo <= rows.hi <= w.Size()
  {
    if !(0 <= rows.lo <= rows.hi <= w.Size()) then Some(BoundsError)
    else if src.Values? && |src.xs| != rows.Count() then Some(ShapeError)
    else None
  }

  /** The vector contents s after writing rows of a view starting at `at`. */
  function Assigned(s: seq<int>, at: int, rows: Rows, src: Source): (r: seq<int>)
    requires 0 <= at + rows.lo <= at + rows.hi <= |s|
    requires src.Values? ==> |src.xs| == rows.Count()
    ensures |r| == |s|
    ensures forall p :: 0 <= p < |s| && !(at + rows.lo <= p < at + rows.hi) ==> r[p] == s[p]
    ensures forall p :: at + rows.lo <= p < at + rows.hi ==> r[p] == src.At(p - at - rows.lo)
  {
    var a, b := at + rows.lo, at + rows.hi;
    s[..a] + seq(b - a, i requires 0 <= i < b - a => src.At(i)) + s[b..]
  }

  /** `view[rows] = src`: checks, then writes positions firstI + lo .. firstI + hi - 1. */
  method Assign(w: DeviceVectorView, rows: Rows, src: Source) returns (err: Option<ViewError>)
    requires w.WithinVector()
    modifies w.vector
    ensures err == CheckWrite(w, rows, src)
    ensures err.None? ==> w.vector[..] == Assigned(old(w.vector[..]), w.firstI, rows, src)
    ensures err.Some? ==> w.vector[..] == old(w.vector[..])
  {
    err := CheckWrite(w, rows, src);
    if err.Some? {
      return;
    }
    var a := w.firstI + rows.lo;
    var i := 0;
    while i < rows.Count()
      invariant 0 <= i <= rows.Count()
      invariant forall p :: 0 <= p < w.vector.Length && !(a <= p < a + i) ==> w.vector[p] == old(w.vector[p])
      invariant forall p :: a <= p < a + i ==> w.vector[p] == src.At(p - a)
    {
      w.vector[a + i] := src.At(i);
      i := i + 1;
    }
  }

  /** Broadcasting to all rows of a view fills its window with the value and
      leaves the rest of the vector as it was. */
  lemma BroadcastFillsWindow(s: seq<int>, w: DeviceVectorView, x: int)
    requires w.WithinVector() && |s| == w.vector.Length
    ensures var r := Assigned(s, w.firstI, Rows(0, w.Size()), Broadcast(x));
      && (forall p :: w.firstI <= p <= w.lastI ==> r[p] == x)
      && r[..w.firstI] == s[..w.firstI] && r[w.lastI + 1..] == s[w.lastI + 1..]
  {
  }

  /** Writing a sequence to all rows of a view makes the window that sequence. */
  lemma ValuesBecomeWindow(s: seq<int>, w: DeviceVectorView, xs: seq<int>)
    requires w.WithinVector() && |s| == w.vector.Length && |xs| == w.Size()
    ensures Assigned(s, w.firstI, Rows(0, w.Size()), Values(xs))[w.firstI .. w.lastI + 1] == xs
  {
  }
}
