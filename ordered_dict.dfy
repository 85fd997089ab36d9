/**
 * Python's `OrderedDict` with string keys, as the data frame uses it: a
 * sequence of distinct keys in insertion order together with the mapping.
 * Assigning to a new key appends it, assigning to an existing key keeps its
 * position, and `del` removes the key and keeps the order of the others.
 */
module OrderedDicts {

  datatype OrderedDict<V> = OrderedDict(keys: seq<string>, entries: map<string, V>) {

    /** The keys are distinct and are exactly the keys of the mapping. */
    ghost predicate Valid() {
      && Distinct(keys)
      && (forall k :: k in entries <==> k in keys)
    }

    /** `d[k] = v`. */
    function Set(k: string, v: V): (r: OrderedDict<V>)
      requires Valid()
      ensures r.Valid() && r.entries == entries[k := v]
      ensures k in entries ==> r.keys == keys
      ensures k !in entries ==> r.keys == keys + [k]
    {
      OrderedDict(if k in entries then keys else keys + [k], entries[k := v])
    }

    /** `del d[k]`; the caller raises `KeyError` when k is absent. */
    function Delete(k: string): (r: OrderedDict<V>)
      requires Valid() && k in entries
      ensures r.Valid() && r.entries == entries - {k}
      ensures |r.keys| == |keys| - 1
      ensures exists i :: 0 <= i < |keys| && keys[i] == k && r.keys == keys[..i] + keys[i + 1..]
    {
      var i := IndexOf(keys, k);
      RemoveAt(keys, i);
      OrderedDict(keys[..i] + keys[i + 1..], entries - {k})
    }

    /** `d.values()`, in key order. */
    function Values(): (r: seq<V>)
      requires Valid()
      ensures |r| == |keys|
      ensures forall i :: 0 <= i < |keys| ==> r[i] == entries[keys[i]]
    {
      seq(|keys|, i requires 0 <= i < |keys| => entries[keys[i]])
    }

    /** `d.values()[0]`; the caller raises `IndexError` on an empty dictionary. */
    function First(): (v: V)
      requires Valid() && |keys| > 0
      ensures v == Values()[0]
    {
      entries[keys[0]]
    }
  }

  function Empty<V>(): (d: OrderedDict<V>)
    ensures d.Valid() && d.keys == []
  {
    OrderedDict([], map[])
  }

  ghost predicate Distinct(s: seq<string>) {
    forall i, j :: 0 <= i < j < |s| ==> s[i] != s[j]
  }

  /** Removing the element at position i of a sequence of distinct keys
      leaves distinct keys: all of the others, and not s[i]. */
  lemma RemoveAt(s: seq<string>, i: nat)
    requires Distinct(s) && i < |s|
    ensures Distinct(s[..i] + s[i + 1..])
    ensures forall x :: x in s[..i] + s[i + 1..] <==> x in s && x != s[i]
  {
    var r := s[..i] + s[i + 1..];
    assert forall p :: 0 <= p < |r| ==> r[p] == s[if p < i then p else p + 1];
    forall x | x in s && x != s[i] ensures x in r {
      var p :| 0 <= p < |s| && s[p] == x;
      assert r[if p < i then p else p - 1] == x;
    }
  }

  /** The position of k among distinct keys. */
  function IndexOf(keys: seq<string>, k: string): (i: nat)
    requires k in keys
    ensures i < |keys| && keys[i] == k
    ensures forall j :: 0 <= j < i ==> keys[j] != k
  {
    if keys[0] == k then 0 else 1 + IndexOf(keys[1..], k)
  }

  /** Deleting a key and assigning it again moves it to the end. */
  lemma DeleteThenSet<V>(d: OrderedDict<V>, k: string, v: V)
    requires d.Valid() && k in d.entries
    ensures d.Delete(k).Set(k, v).entries == d.entries[k := v]
    ensures |d.Delete(k).Set(k, v).keys| == |d.keys|
    ensures d.Delete(k).Set(k, v).keys[|d.keys| - 1] == k
  {
  }

  /** Assigning a new key and deleting it again restores the dictionary. */
  lemma SetThenDelete<V>(d: OrderedDict<V>, k: string, v: V)
    requires d.Valid() && k !in d.entries
    ensures d.Set(k, v).Delete(k) == d
  {
    IndexOfAppended(d.keys, k);
    RemoveLast(d.keys, k);
  }

  /** A key appended to keys that lack it sits at the end. */
  lemma IndexOfAppended(keys: seq<string>, k: string)
    requires k !in keys
    ensures IndexOf(keys + [k], k) == |keys|
  {
    var i := IndexOf(keys + [k], k);
    if i < |keys| {
      assert false;
    }
  }

  lemma RemoveLast(keys: seq<string>, k: string)
    ensures (keys + [k])[..|keys|] + (keys + [k])[|keys| + 1..] == keys
  {
    assert (keys + [k])[..|keys|] == keys;
  }

  /** Deleting a key depends on the key order alone: dictionaries with the
      same keys in the same order still have them after deleting one. */
  lemma DeleteSameKeys<V, W>(d1: OrderedDict<V>, d2: OrderedDict<W>, k: string)
    requires d1.Valid() && d2.Valid() && d1.keys == d2.keys && k in d1.entries
    ensures k in d2.entries && d1.Delete(k).keys == d2.Delete(k).keys
  {
  }
}
