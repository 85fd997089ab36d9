/**
 * `DeviceDataFrame`: a columnar container of device vectors.
 *
 * A frame holds two parallel ordered dictionaries: `data`, from column name
 * to device vector, and `views`, from column name to a view of that vector.
 * The data dictionary is an object of its own (`ColumnStore`): `base()` and
 * `view()` hand the very same dictionary to the frame they return, so the
 * vectors are never copied, and a column added to or dropped from one of
 * those frames is added to or dropped from the dictionary the others see.
 * Each frame has its own view dictionary.
 */
module DataFrame {
  import opened Wrappers
  import opened OrderedDicts
  import opened DeviceVectors

  /** The exceptions the frame raises, or lets through from the view layer. */
  datatype Error = ValueError | KeyError | IndexError | AssertionError | ViewFailure(cause: ViewError)

  /** The element type of a new column; `add` only tests whether it was given. */
  datatype DType = Int8 | Int16 | Int32 | Int64 | UInt8 | UInt16 | UInt32 | UInt64 | Float32 | Float64

  /** What `frame[rows] = value` assigns: a scalar or a sequence of values,
      which every view receives, or a host table of columns. */
  datatype Value = Scalar(x: int) | Row(xs: seq<int>) | Table(columns: OrderedDict<seq<int>>)

  function Min(a: int, b: int): int {
    if a < b then a else b
  }

  function Zeros(n: nat): (z: seq<int>)
    ensures |z| == n && forall i :: 0 <= i < n ==> z[i] == 0
  {
    seq(n, _ => 0)
  }

  /** The window arithmetic of `view(start, end)` on a frame whose first view
      has window [firstI, lastI] and size `size`: the absolute start row and
      the absolute end row (exclusive) of the new window. The window never
      ends past the last row of the first view; without an end it is empty,
      starting at the frame's first row and ending there or before. */
  function ResolveWindow(size: int, firstI: int, lastI: int, start: int, end: Option<int>): (w: (int, int))
    ensures w.1 <= lastI + 1
    ensures end.None? ==> w.0 == firstI && w.1 <= firstI
  {
    var (s0, e0) := if end.None? then (0, 0) else (start, end.value);
    var s1 := if s0 < 0 then size + s0 else s0;
    var e1 := if e0 < 0 then size + e0 + 1 else if e0 > size then size else e0;
    (s1 + firstI, Min(lastI + 1, e1 + firstI))
  }

  /** A negative start counts from the end of the frame. */
  lemma NegativeStartCountsFromEnd(size: int, firstI: int, lastI: int, start: int, end: int)
    requires start < 0 && size + start >= 0
    ensures ResolveWindow(size, firstI, lastI, start, Some(end))
         == ResolveWindow(size, firstI, lastI, size + start, Some(end))
  {
  }

  /** A negative end counts from the end of the frame, -1 being the end itself. */
  lemma NegativeEndCountsFromEnd(size: int, firstI: int, lastI: int, start: int, end: int)
    requires end < 0 && size + end + 1 >= 0
    ensures ResolveWindow(size, firstI, lastI, start, Some(end))
         == ResolveWindow(size, firstI, lastI, start, Some(size + end + 1))
  {
  }

  /** An end past the frame is the end of the frame. */
  lemma EndIsClamped(size: int, firstI: int, lastI: int, start: int, end: int)
    requires 0 <= size < end
    ensures ResolveWindow(size, firstI, lastI, start, Some(end))
         == ResolveWindow(size, firstI, lastI, start, Some(size))
  {
  }

  /** Within the frame, rows [start, end) of a window [firstI, lastI] are the
      absolute rows [firstI + start, firstI + end). */
  lemma InRangeViewIsTranslated(firstI: int, lastI: int, start: int, end: int)
    requires 0 <= start && start <= end && end <= lastI - firstI + 1
    ensures ResolveWindow(lastI - firstI + 1, firstI, lastI, start, Some(end)) == (firstI + start, firstI + end)
  {
  }

  /** Views of views compose: rows [s2, e2) of rows [s1, e1) are rows
      [s1 + s2, s1 + e2). */
  lemma ViewOfView(firstI: int, lastI: int, s1: int, e1: int, s2: int, e2: int)
    requires 0 <= s1 <= e1 <= lastI - firstI + 1
    requires 0 <= s2 <= e2 <= e1 - s1
    ensures var w := ResolveWindow(lastI - firstI + 1, firstI, lastI, s1, Some(e1));
            (ResolveWindow(w.1 - w.0, w.0, w.1 - 1, s2, Some(e2))
             == ResolveWindow(lastI - firstI + 1, firstI, lastI, s1 + s2, Some(s1 + e2)))
  {
    InRangeViewIsTranslated(firstI, lastI, s1, e1);
    InRangeViewIsTranslated(firstI + s1, firstI + e1 - 1, s2, e2);
    InRangeViewIsTranslated(firstI, lastI, s1 + s2, s1 + e2);
  }

  /** The last three rows of a ten-row frame: `view(-3, -1)` is `view(7, 10)`. */
  lemma LastThreeRows()
    ensures ResolveWindow(10, 0, 9, -3, Some(-1)) == ResolveWindow(10, 0, 9, 7, Some(10)) == (7, 10)
  {
  }

  ghost predicate Injective(m: map<string, array<int>>) {
    forall k1, k2 :: k1 in m && k2 in m && k1 != k2 ==> m[k1] != m[k2]
  }

  /** A view dictionary is well formed, no two of its views share a vector,
      and every window lies inside its vector. */
  ghost predicate ViewsValid(views: OrderedDict<DeviceVectorView>) {
    && views.Valid()
    && (forall k1, k2 :: k1 in views.entries && k2 in views.entries && k1 != k2 ==>
          views.entries[k1].vector != views.entries[k2].vector)
    && (forall k :: k in views.entries ==> views.entries[k].WithinVector())
  }

  ghost predicate ConsistentDicts(views: OrderedDict<DeviceVectorView>, dict: OrderedDict<array<int>>) {
    && views.keys == dict.keys
    && (forall k :: k in views.entries && k in dict.entries ==> views.entries[k].vector == dict.entries[k])
  }

  ghost predicate AlignedViews(views: OrderedDict<DeviceVectorView>) {
    forall k1, k2 :: k1 in views.entries && k2 in views.entries ==>
      views.entries[k1].firstI == views.entries[k2].firstI &&
      views.entries[k1].lastI == views.entries[k2].lastI
  }

  /** Assigning a view over a vector no other view uses keeps a view
      dictionary well formed. */
  lemma ViewsValidSet(views: OrderedDict<DeviceVectorView>, name: string, w: DeviceVectorView)
    requires ViewsValid(views) && w.WithinVector()
    requires forall k :: k in views.entries && k != name ==> views.entries[k].vector != w.vector
    ensures ViewsValid(views.Set(name, w))
  {
  }

  /** Adding a column to both dictionaries keeps them consistent. */
  lemma AddKeepsConsistent(views: OrderedDict<DeviceVectorView>, dict: OrderedDict<array<int>>,
                           name: string, vec: array<int>, firstI: int, lastI: int)
    requires views.Valid() && dict.Valid() && ConsistentDicts(views, dict)
    ensures ConsistentDicts(views.Set(name, DeviceVectorView(vec, firstI, lastI)), dict.Set(name, vec))
  {
    assert name in views.entries <==> name in dict.entries;
  }

  /** A new view with the window of the first view keeps the views aligned. */
  lemma AddKeepsAligned(views: OrderedDict<DeviceVectorView>, name: string, w: DeviceVectorView)
    requires views.Valid() && AlignedViews(views) && views.keys != []
    requires w.firstI == views.First().firstI && w.lastI == views.First().lastI
    ensures AlignedViews(views.Set(name, w))
  {
    assert views.keys[0] in views.entries;
  }

  /** Deleting a column from both dictionaries keeps them consistent. */
  lemma DropKeepsConsistent(views: OrderedDict<DeviceVectorView>, dict: OrderedDict<array<int>>, name: string)
    requires views.Valid() && dict.Valid() && ConsistentDicts(views, dict) && name in views.entries
    ensures name in dict.entries
    ensures ConsistentDicts(views.Delete(name), dict.Delete(name))
  {
    DeleteSameKeys(views, dict, name);
  }

  /** Every vector of a dictionary has its own full-extent view. */
  function FullViews(d: OrderedDict<array<int>>): (r: OrderedDict<DeviceVectorView>)
    requires d.Valid()
    ensures r.keys == d.keys && r.entries.Keys == d.entries.Keys
    ensures forall k :: k in d.entries ==> r.entries[k] == FullView(d.entries[k])
    ensures Injective(d.entries) ==> ViewsValid(r)
    ensures ConsistentDicts(r, d)
    ensures SameLengths(d.entries) ==> AlignedViews(r)
  {
    OrderedDict(d.keys, map k | k in d.entries :: FullView(d.entries[k]))
  }

  /** Every vector of a dictionary has a view with the window [firstI, lastI]. */
  function WindowViews(d: OrderedDict<array<int>>, firstI: int, lastI: int): (r: OrderedDict<DeviceVectorView>)
    requires d.Valid()
    ensures r.keys == d.keys && r.entries.Keys == d.entries.Keys
    ensures forall k :: k in d.entries ==> r.entries[k] == DeviceVectorView(d.entries[k], firstI, lastI)
    ensures Injective(d.entries) && (forall k :: k in d.entries ==> Fits(d.entries[k], firstI, lastI)) ==>
              ViewsValid(r)
    ensures ConsistentDicts(r, d) && AlignedViews(r)
  {
    OrderedDict(d.keys, map k | k in d.entries :: DeviceVectorView(d.entries[k], firstI, lastI))
  }

  /** The shared `OrderedDict` from column name to device vector. Every vector
      is created by `from_array`, so no two columns share one. */
  class ColumnStore {
    var dict: OrderedDict<array<int>>

    ghost predicate Valid()
      reads this
    {
      dict.Valid() && Injective(dict.entries)
    }

    constructor ()
      ensures Valid() && dict.keys == []
    {
      dict := Empty();
    }

    constructor Of(d: OrderedDict<array<int>>)
      requires d.Valid() && Injective(d.entries)
      ensures Valid() && dict == d
    {
      dict := d;
    }
  }

  class DeviceDataFrame {
    var data: ColumnStore
    var views: OrderedDict<DeviceVectorView>

    /** What holds of every frame: both dictionaries are well formed, no two
        views share a vector, and every window lies inside its vector. */
    ghost predicate Valid()
      reads this, data
    {
      data.Valid() && ViewsValid(views)
    }

    /** The two dictionaries have the same keys in the same order, and every
        column's view is a view of that column's vector. */
    ghost predicate Consistent()
      reads this, data
    {
      ConsistentDicts(views, data.dict)
    }

    /** All views have the same window. */
    ghost predicate Aligned()
      reads this
    {
      AlignedViews(views)
    }

    /** The vectors this frame's views can write to. */
    ghost function ViewVectors(): set<array<int>>
      reads this
    {
      set k | k in views.entries :: views.entries[k].vector
    }

    /** A frame built without data. */
    constructor ()
      ensures Valid() && Consistent() && Aligned()
      ensures fresh(data) && data.dict.keys == [] && views.keys == []
    {
      data := new ColumnStore();
      views := Empty();
    }

    /** A frame over an existing data dictionary with the given views. */
    constructor Over(store: ColumnStore, vs: OrderedDict<DeviceVectorView>)
      ensures data == store && views == vs
    {
      data := store;
      views := vs;
    }

    /** Building a frame from a dictionary of host arrays: the arrays must
        all have one length (an `AssertionError` otherwise, also for an empty
        dictionary); every column gets a new vector holding a copy of its
        array and a full-extent view, in the order of the dictionary. */
    static method FromDict(columns: OrderedDict<seq<int>>) returns (res: Result<DeviceDataFrame, Error>)
      requires columns.Valid()
      ensures res.Err? <==> !EqualLengths(columns)
      ensures res.Err? ==> res.error == AssertionError
      ensures res.Ok? ==>
        var f := res.value;
        && fresh(f) && fresh(f.data)
        && f.Valid() && f.Consistent() && f.Aligned()
        && f.data.dict.keys == columns.keys
        && (forall k :: k in columns.entries ==>
              && k in f.data.dict.entries && k in f.views.entries
              && fresh(f.data.dict.entries[k])
              && f.data.dict.entries[k][..] == columns.entries[k]
              && f.views.entries[k] == FullView(f.data.dict.entries[k]))
    {
      var sizes := set k | k in columns.entries :: |columns.entries[k]|;
      SingleSize(columns, sizes);
      if |sizes| != 1 {
        return Err(AssertionError);
      }
      var d := NewVectors(columns);
      assert SameLengths(d.entries);
      var store := new ColumnStore.Of(d);
      var f := new DeviceDataFrame.Over(store, FullViews(d));
      return Ok(f);
    }

    /** The loop of the constructor: one new vector per column, in order. */
    static method NewVectors(columns: OrderedDict<seq<int>>) returns (d: OrderedDict<array<int>>)
      requires columns.Valid()
      ensures d.Valid() && d.keys == columns.keys && Injective(d.entries)
      ensures forall k :: k in columns.entries ==>
                k in d.entries && fresh(d.entries[k]) && d.entries[k][..] == columns.entries[k]
    {
      d := Empty();
      var i := 0;
      while i < |columns.keys|
        invariant 0 <= i <= |columns.keys|
        invariant d.Valid() && d.keys == columns.keys[..i] && Injective(d.entries)
        invariant forall k :: k in d.entries ==>
                    fresh(d.entries[k]) && d.entries[k][..] == columns.entries[k]
      {
        var k := columns.keys[i];
        var v := FromArray(columns.entries[k]);
        assert columns.keys[..i + 1] == columns.keys[..i] + [k];
        d := d.Set(k, v);
        i := i + 1;
      }
      assert columns.keys[..i] == columns.keys;
    }

    /** `add(name, column_data, dtype)`. With neither data nor dtype it raises
        `ValueError`; on a frame without columns it raises `IndexError`.
        Otherwise the column gets a new vector (a copy of the data, or zeros
        of the first vector's length) and a view with the window of the
        first view. The vector is stored before the view is made, so when
        the frame has no view or the window does not fit the new vector, the
        data dictionary holds the new vector while the view dictionary is as
        it was: a new name has no view, and an existing name keeps its old
        view over the old vector. Either way the frame is no longer
        consistent. */
    method Add(name: string, columnData: Option<seq<int>>, dtype: Option<DType>) returns (res: Result<(), Error>)
      requires Valid()
      modifies this, data
      ensures Valid() && data == old(data)
      ensures columnData.None? && dtype.None? ==>
        res == Err(ValueError) && views == old(views) && data.dict == old(data.dict)
      ensures (columnData.Some? || dtype.Some?) && old(data.dict.keys) == [] ==>
        res == Err(IndexError) && views == old(views) && data.dict == old(data.dict)
      ensures (columnData.Some? || dtype.Some?) && old(data.dict.keys) != [] ==>
        && name in data.dict.entries
        && var vec := data.dict.entries[name];
        && fresh(vec)
        && vec[..] == (if columnData.Some? then columnData.value else Zeros(old(data.dict.First()).Length))
        && data.dict == old(data.dict).Set(name, vec)
        && (old(views.keys) == [] ==> res == Err(IndexError) && views == old(views))
        && (old(views.keys) != [] ==>
              var sample := old(views.First());
              if Fits(vec, sample.firstI, sample.lastI) then
                res == Ok(()) &&
                views == old(views).Set(name, DeviceVectorView(vec, sample.firstI, sample.lastI))
              else
                res == Err(ViewFailure(BoundsError)) && views == old(views))
      ensures res.Ok? && old(Consistent()) ==> Consistent()
      ensures res.Ok? && old(Aligned()) ==> Aligned()
      ensures res.Err? && res.error.ViewFailure? && old(Consistent()) ==> !Consistent()
    {
      if dtype.None? && columnData.None? {
        return Err(ValueError);
      }
      if data.dict.keys == [] {
        return Err(IndexError);
      }
      var size := data.dict.First().Length;
      var values := if columnData.None? then Zeros(size) else columnData.value;
      ghost var d0 := data.dict;
      var vec := StoreColumn(name, values);
      res := AttachView(name, vec);
      if res.Ok? && old(Consistent()) {
        AddKeepsConsistent(old(views), d0, name, vec, old(views.First()).firstI, old(views.First()).lastI);
      }
    }

    /** The second half of `add`: the view of the new vector, with the window
        of the first view. */
    method AttachView(name: string, vec: array<int>) returns (res: Result<(), Error>)
      requires ViewsValid(views)
      requires forall k :: k in views.entries ==> views.entries[k].vector != vec
      modifies this
      ensures ViewsValid(views) && data == old(data)
      ensures old(views.keys) == [] ==> res == Err(IndexError) && views == old(views)
      ensures old(views.keys) != [] ==>
        var sample := old(views.First());
        if Fits(vec, sample.firstI, sample.lastI) then
          res == Ok(()) && views == old(views).Set(name, DeviceVectorView(vec, sample.firstI, sample.lastI))
        else
          res == Err(ViewFailure(BoundsError)) && views == old(views)
      ensures res.Ok? && old(AlignedViews(views)) ==> AlignedViews(views)
    {
      if views.keys == [] {
        return Err(IndexError);
      }
      var sample := views.First();
      var view := ViewFromVector(vec, sample.firstI, sample.lastI);
      if view.Err? {
        return Err(ViewFailure(view.error));
      }
      ViewsValidSet(views, name, view.value);
      if AlignedViews(views) {
        AddKeepsAligned(views, name, view.value);
      }
      views := views.Set(name, view.value);
      return Ok(());
    }

    /** Stores a new vector holding `values` under `name` in the data dictionary. */
    method StoreColumn(name: string, values: seq<int>) returns (vec: array<int>)
      requires data.Valid()
      modifies data
      ensures data.Valid() && fresh(vec) && vec[..] == values
      ensures data.dict == old(data.dict).Set(name, vec)
    {
      vec := FromArray(values);
      data.dict := data.dict.Set(name, vec);
    }

    /** `drop(name)`: removes the name from the views, then from the data;
        each `del` raises `KeyError` when the name is absent. */
    method Drop(name: string) returns (res: Result<(), Error>)
      requires Valid()
      modifies this, data
      ensures Valid() && data == old(data)
      ensures name !in old(views.entries) ==>
        res == Err(KeyError) && views == old(views) && data.dict == old(data.dict)
      ensures name in old(views.entries) ==> views == old(views).Delete(name)
      ensures name in old(views.entries) && name in old(data.dict.entries) ==>
        res == Ok(()) && data.dict == old(data.dict).Delete(name)
      ensures name in old(views.entries) && name !in old(data.dict.entries) ==>
        res == Err(KeyError) && data.dict == old(data.dict)
      ensures old(Consistent()) ==> Consistent() && (res.Ok? <==> name in old(views.entries))
      ensures old(Aligned()) ==> Aligned()
    {
      if name !in views.entries {
        return Err(KeyError);
      }
      if Consistent() {
        DropKeepsConsistent(views, data.dict, name);
      }
      views := views.Delete(name);
      if name !in data.dict.entries {
        return Err(KeyError);
      }
      data.dict := data.dict.Delete(name);
      return Ok(());
    }

    /** `base()`: a frame over the same data dictionary in which every column
        has a full-extent view. */
    method Base() returns (r: DeviceDataFrame)
      requires Valid()
      ensures fresh(r) && r.data == data
      ensures r.Valid() && r.Consistent()
      ensures r.views.keys == data.dict.keys
      ensures forall k :: k in data.dict.entries ==>
                k in r.views.entries && r.views.entries[k] == FullView(data.dict.entries[k])
      ensures SameLengths(data.dict.entries) ==> r.Aligned()
      ensures data.dict.keys != [] ==> r.IndexBounds() == Ok((0, data.dict.First().Length))
    {
      r := new DeviceDataFrame.Over(data, FullViews(data.dict));
    }

    /** `size`: the size of the first view; `IndexError` without views. */
    function Size(): (r: Result<int, Error>)
      reads this
      requires views.Valid()
      ensures r.Err? <==> views.keys == []
      ensures r.Ok? ==> IndexBounds().Ok? && r.value == IndexBounds().value.1 - IndexBounds().value.0
      ensures r.Ok? && ViewsValid(views) ==> r.value >= 0
    {
      if views.keys == [] then Err(IndexError) else Ok(views.First().Size())
    }

    /** `index_bounds()`: the first view's first row and one past its last row. */
    function IndexBounds(): (r: Result<(int, int), Error>)
      reads this
      requires views.Valid()
      ensures r.Err? <==> views.keys == []
      ensures r.Ok? ==> r.value.1 - r.value.0 == views.First().Size()
      ensures r.Ok? && ViewsValid(views) ==> 0 <= r.value.0 <= r.value.1
    {
      if views.keys == [] then Err(IndexError)
      else
        var v := views.First();
        Ok((v.firstI, v.lastI + 1))
    }

    /** `_in_bounds(i)`. */
    function InBounds(i: int): (r: Result<bool, Error>)
      reads this
      requires views.Valid()
      ensures r.Err? <==> views.keys == []
      ensures r.Ok? ==> (r.value <==> views.First().firstI <= i <= views.First().lastI)
    {
      match IndexBounds()
      case Err(e) => Err(e)
      case Ok((lbound, ubound)) => Ok(i >= lbound && i < ubound && lbound < ubound)
    }

    /** On an aligned frame every view has the frame's bounds and size. */
    lemma AlignedViewsShareBounds(k: string)
      requires views.Valid() && Aligned() && k in views.entries
      ensures IndexBounds() == Ok((views.entries[k].firstI, views.entries[k].lastI + 1))
      ensures Size() == Ok(views.entries[k].Size())
    {
      assert views.keys[0] in views.entries;
    }

    /** `views()`: the views in column order. */
    function Views(): (r: seq<DeviceVectorView>)
      reads this
      requires views.Valid()
      ensures |r| == |views.keys| && forall i :: 0 <= i < |r| ==> r[i] == views.entries[views.keys[i]]
    {
      views.Values()
    }

    /** The absolute window `view(start, end)` gives on this frame. */
    ghost function RowWindow(start: int, end: Option<int>): (int, int)
      reads this
      requires views.Valid() && views.keys != []
    {
      var sample := views.First();
      ResolveWindow(sample.Size(), sample.firstI, sample.lastI, start, end)
    }

    /** `view(start, end)`: a frame over the same data dictionary in which
        every column of the data has a view of the rows [start, end) of this
        frame, negative positions counting from its end. `size` is read on
        every call, so a frame without views raises `IndexError`; a window
        that does not fit a vector raises the view layer's bounds error. */
    method View(start: int, end: Option<int>) returns (res: Result<DeviceDataFrame, Error>)
      requires Valid()
      ensures views.keys == [] ==> res == Err(IndexError)
      ensures views.keys != [] ==>
        var w := RowWindow(start, end);
        && (res.Ok? <==> forall k :: k in data.dict.entries ==> Fits(data.dict.entries[k], w.0, w.1 - 1))
        && (res.Err? ==> res.error == ViewFailure(BoundsError))
        && (res.Ok? ==>
              var f := res.value;
              && fresh(f) && f.data == data
              && f.Valid() && f.Consistent() && f.Aligned()
              && f.views.keys == data.dict.keys
              && (data.dict.keys != [] ==> f.IndexBounds() == Ok(w))
              && forall k :: k in data.dict.entries ==>
                   k in f.views.entries &&
                   f.views.entries[k] == DeviceVectorView(data.dict.entries[k], w.0, w.1 - 1))
    {
      if views.keys == [] {
        return Err(IndexError);
      }
      var sample := views.First();
      var w := ResolveWindow(sample.Size(), sample.firstI, sample.lastI, start, end);
      if !(forall k | k in data.dict.entries :: Fits(data.dict.entries[k], w.0, w.1 - 1)) {
        return Err(ViewFailure(BoundsError));
      }
      var f := new DeviceDataFrame.Over(data, WindowViews(data.dict, w.0, w.1 - 1));
      return Ok(f);
    }

    /** `frame[rows] = value`. A table naming a column the frame has no view
        for raises `KeyError` before anything is written. A table writes each
        of its columns into that column's view, in the table's order; a
        scalar or a sequence goes to every view, in the frame's order. The first
        write the view layer refuses stops the assignment with that write's
        error, with the earlier writes done and the later columns untouched. */
    method SetItem(rows: Rows, value: Value) returns (res: Result<(), Error>)
      requires Valid()
      requires value.Table? ==> value.columns.Valid()
      modifies ViewVectors()
      ensures Valid()
      ensures value.Table? && !(value.columns.entries.Keys <= views.entries.Keys) ==>
        res == Err(KeyError) && Untouched(old(Snapshot()))
      ensures value.Scalar? ==>
        (res.Ok? <==> forall k :: k in views.entries ==> CheckWrite(views.entries[k], rows, Broadcast(value.x)).None?)
      ensures value.Row? ==>
        (res.Ok? <==> forall k :: k in views.entries ==> CheckWrite(views.entries[k], rows, Values(value.xs)).None?)
      ensures value.Table? && value.columns.entries.Keys <= views.entries.Keys ==>
        (res.Ok? <==> forall c :: c in value.columns.entries ==>
           CheckWrite(views.entries[c], rows, Values(value.columns.entries[c])).None?)
      ensures res.Ok? ==> Written(old(Snapshot()), rows, value)
      ensures (!value.Table? || value.columns.entries.Keys <= views.entries.Keys) && res.Err? ==>
        res.error.ViewFailure? && exists i :: FailedAt(old(Snapshot()), rows, value, i, res.error.cause)
      ensures res.Err? && old(Aligned()) && Uniform(value) ==> Untouched(old(Snapshot()))
    {
      if value.Table? {
        var missing := value.columns.entries.Keys - views.entries.Keys;
        if missing != {} {
          assert exists c :: c in missing;
          return Err(KeyError);
        }
        assert forall c :: c in value.columns.entries ==> c !in missing;
      }
      res := WriteAll(rows, value);
    }

    /** The assignment loop, once every column the value names has a view. */
    method WriteAll(rows: Rows, value: Value) returns (res: Result<(), Error>)
      requires ViewsValid(views)
      requires value.Table? ==> value.columns.Valid()
      requires Targets(value) <= views.entries.Keys
      modifies ViewVectors()
      ensures res.Ok? <==> forall k :: k in Targets(value) ==> CheckWrite(views.entries[k], rows, SourceFor(value, k)).None?
      ensures res.Ok? ==> Written(old(Snapshot()), rows, value)
      ensures res.Err? ==> res.error.ViewFailure? && exists i :: FailedAt(old(Snapshot()), rows, value, i, res.error.cause)
      ensures res.Err? && old(Aligned()) && Uniform(value) ==> Untouched(old(Snapshot()))
    {
      ghost var before := Snapshot();
      ghost var done: set<string> := {};
      var keys := Order(value);
      var i := 0;
      while i < |keys|
        invariant 0 <= i <= |keys|
        invariant forall j :: 0 <= j < |keys| ==> (keys[j] in done <==> j < i)
        invariant done <= Targets(value)
        invariant WrittenOn(before, done, rows, value)
      {
        var k := keys[i];
        Advance(keys, done, i);
        assert views.entries[k].vector in ViewVectors();
        var err := WriteColumn(before, done, k, rows, value);
        if err.Some? {
          if old(Aligned()) && Uniform(value) {
            if i > 0 {
              assert keys[0] in done;
              SameCheck(rows, value, keys[0], k);
              assert false;
            }
            NothingWritten(before, done, rows, value);
          }
          FailureWitness(before, done, i, rows, value, err.value);
          return Err(ViewFailure(err.value));
        }
        done := done + {k};
        i := i + 1;
      }
      AllDone(keys, done, Targets(value));
      return Ok(());
    }

    /** One write of the assignment loop: column k receives its source. */
    method WriteColumn(ghost before: map<string, seq<int>>, ghost done: set<string>, k: string, rows: Rows, value: Value)
      returns (err: Option<ViewError>)
      requires ViewsValid(views) && (value.Table? ==> value.columns.Valid())
      requires Targets(value) <= views.entries.Keys
      requires done <= Targets(value) && k in Targets(value) && k !in done
      requires WrittenOn(before, done, rows, value) && before.Keys == views.entries.Keys
      modifies views.entries[k].vector
      ensures err == CheckWrite(views.entries[k], rows, SourceFor(value, k))
      ensures err.None? ==> WrittenOn(before, done + {k}, rows, value)
      ensures err.Some? ==> WrittenOn(before, done, rows, value)
    {
      err := Assign(views.entries[k], rows, SourceFor(value, k));
    }

    /** The order of the writes: the table's own for a table, the frame's otherwise. */
    function Order(value: Value): (r: seq<string>)
      reads this
      requires views.Valid() && (value.Table? ==> value.columns.Valid())
      ensures Distinct(r) && forall k :: k in r <==> k in Targets(value)
    {
      if value.Table? then value.columns.keys else views.keys
    }

    /** The assignment stopped at write i of the order with error e: the
        view layer accepted the writes before it and refused this one, the
        columns before it hold their written rows and the others are as
        before. */
    ghost predicate FailedAt(before: map<string, seq<int>>, rows: Rows, value: Value, i: int, e: ViewError)
      reads this, ViewVectors()
      requires ViewsValid(views) && (value.Table? ==> value.columns.Valid())
      requires Targets(value) <= views.entries.Keys
    {
      var keys := Order(value);
      && 0 <= i < |keys|
      && (forall j :: 0 <= j < i ==> CheckWrite(views.entries[keys[j]], rows, SourceFor(value, keys[j])).None?)
      && CheckWrite(views.entries[keys[i]], rows, SourceFor(value, keys[i])) == Some(e)
      && WrittenOn(before, Prefix(keys, i), rows, value)
    }

    /** At the refused write of the loop, the loop's state is `FailedAt`. */
    lemma FailureWitness(before: map<string, seq<int>>, done: set<string>, i: int, rows: Rows, value: Value, e: ViewError)
      requires ViewsValid(views) && (value.Table? ==> value.columns.Valid())
      requires Targets(value) <= views.entries.Keys && before.Keys == views.entries.Keys
      requires 0 <= i < |Order(value)|
      requires forall j :: 0 <= j < |Order(value)| ==> (Order(value)[j] in done <==> j < i)
      requires done <= Targets(value) && WrittenOn(before, done, rows, value)
      requires CheckWrite(views.entries[Order(value)[i]], rows, SourceFor(value, Order(value)[i])) == Some(e)
      ensures FailedAt(before, rows, value, i, e)
    {
      var keys := Order(value);
      assert done == Prefix(keys, i) by {
        forall k | k in done ensures k in Prefix(keys, i) {
          var j :| 0 <= j < |keys| && keys[j] == k;
        }
      }
      forall j | 0 <= j < i
        ensures CheckWrite(views.entries[keys[j]], rows, SourceFor(value, keys[j])).None?
      {
        assert keys[j] in done;
      }
    }

    /** The columns `value` writes: the table's own for a table, all of them otherwise. */
    ghost function Targets(value: Value): set<string>
      reads this
    {
      if value.Table? then value.columns.entries.Keys else views.entries.Keys
    }

    /** The source a column receives from `value`. */
    function SourceFor(value: Value, k: string): Source
      requires value.Table? ==> k in value.columns.entries
    {
      match value
      case Scalar(x) => Broadcast(x)
      case Row(xs) => Values(xs)
      case Table(columns) => Values(columns.entries[k])
    }

    /** The contents of every view's vector. */
    ghost function Snapshot(): (r: map<string, seq<int>>)
      reads this, ViewVectors()
      ensures r.Keys == views.entries.Keys
      ensures forall k :: k in views.entries ==> r[k] == views.entries[k].vector[..]
    {
      map k | k in views.entries :: views.entries[k].vector[..]
    }

    ghost predicate Untouched(before: map<string, seq<int>>)
      reads this, ViewVectors()
    {
      forall k :: k in views.entries && k in before ==> views.entries[k].vector[..] == before[k]
    }

    /** The columns in `done` hold the written rows; the others are as before. */
    ghost predicate WrittenOn(before: map<string, seq<int>>, done: set<string>, rows: Rows, value: Value)
      reads this, ViewVectors()
      requires ViewsValid(views) && (value.Table? ==> value.columns.Valid())
      requires done <= Targets(value)
    {
      forall k :: k in views.entries && k in before ==>
        if k in done then
          && CheckWrite(views.entries[k], rows, SourceFor(value, k)).None?
          && |before[k]| == views.entries[k].vector.Length
          && views.entries[k].vector[..] == Assigned(before[k], views.entries[k].firstI, rows, SourceFor(value, k))
        else views.entries[k].vector[..] == before[k]
    }

    /** Every column the value names (every column, unless it is a table) holds
        the written rows; the other columns are as before. */
    ghost predicate Written(before: map<string, seq<int>>, rows: Rows, value: Value)
      reads this, ViewVectors()
      requires ViewsValid(views) && (value.Table? ==> value.columns.Valid())
      requires value.Table? ==> value.columns.entries.Keys <= views.entries.Keys
    {
      WrittenOn(before, Targets(value), rows, value)
    }

    /** Before the first write every vector is as it was. */
    lemma NothingWritten(before: map<string, seq<int>>, done: set<string>, rows: Rows, value: Value)
      requires ViewsValid(views) && (value.Table? ==> value.columns.Valid())
      requires done == {} && WrittenOn(before, done, rows, value)
      ensures Untouched(before)
    {
    }

    /** On an aligned frame the view layer accepts a uniform value for all
        columns or for none. */
    lemma SameCheck(rows: Rows, value: Value, k1: string, k2: string)
      requires views.Valid() && Aligned() && Uniform(value)
      requires k1 in views.entries && k2 in views.entries
      requires value.Table? ==> k1 in value.columns.entries && k2 in value.columns.entries
      ensures CheckWrite(views.entries[k1], rows, SourceFor(value, k1))
           == CheckWrite(views.entries[k2], rows, SourceFor(value, k2))
    {
    }
  }

  /** The host arrays of a dictionary all have one length, and there is one. */
  ghost predicate EqualLengths(columns: OrderedDict<seq<int>>)
    requires columns.Valid()
  {
    |columns.keys| > 0 &&
    forall k :: k in columns.entries ==> |columns.entries[k]| == |columns.entries[columns.keys[0]]|
  }

  ghost predicate SameLengths(m: map<string, array<int>>) {
    forall k1, k2 :: k1 in m && k2 in m ==> m[k1].Length == m[k2].Length
  }

  /** A scalar, a sequence, or a table whose columns all have one length. */
  ghost predicate Uniform(value: Value) {
    value.Table? ==>
      forall c1, c2 :: c1 in value.columns.entries && c2 in value.columns.entries ==>
        |value.columns.entries[c1]| == |value.columns.entries[c2]|
  }

  /** The first i keys of a sequence, as a set. */
  ghost function Prefix(keys: seq<string>, i: int): (r: set<string>)
    requires 0 <= i <= |keys|
    ensures forall k :: k in r <==> exists j :: 0 <= j < i && keys[j] == k
  {
    set j | 0 <= j < i :: keys[j]
  }

  /** The bookkeeping of a loop over distinct keys: the keys before position i
      are done, and the next one is not. */
  lemma Advance(keys: seq<string>, done: set<string>, i: int)
    requires Distinct(keys) && 0 <= i < |keys|
    requires forall j :: 0 <= j < |keys| ==> (keys[j] in done <==> j < i)
    ensures keys[i] !in done
    ensures forall j :: 0 <= j < |keys| ==> (keys[j] in done + {keys[i]} <==> j < i + 1)
  {
  }

  lemma AllDone(keys: seq<string>, done: set<string>, targets: set<string>)
    requires forall j :: 0 <= j < |keys| ==> keys[j] in done
    requires (forall k :: k in keys <==> k in targets) && done <= targets
    ensures done == targets
  {
  }

  /** The assertion `len(set(sizes)) == 1` holds exactly for equal lengths. */
  lemma SingleSize(columns: OrderedDict<seq<int>>, sizes: set<int>)
    requires columns.Valid()
    requires sizes == set k | k in columns.entries :: |columns.entries[k]|
    ensures |sizes| == 1 <==> EqualLengths(columns)
  {
    if EqualLengths(columns) {
      var n := |columns.entries[columns.keys[0]]|;
      assert sizes == {n};
    }
    if |sizes| == 1 {
      var n :| n in sizes;
      assert |sizes - {n}| == 0;
      assert sizes == {n};
      var k0 :| k0 in columns.entries && |columns.entries[k0]| == n;
      assert k0 in columns.keys;
      assert columns.keys[0] in columns.entries;
      forall k | k in columns.entries
        ensures |columns.entries[k]| == n
      {
        assert |columns.entries[k]| in sizes;
      }
    }
  }
}
