/** A Python `dict` with string keys, kept as the sequence of its entries in
    insertion order: iteration, "first match wins" scans and `values()` all
    follow that order, and assigning to a key already present keeps its place. */
module Tables {
  import opened Common

  type Table<V> = seq<(string, V)>

  function Keys<V>(t: Table<V>): (r: seq<string>)
    ensures |r| == |t| && forall i :: 0 <= i < |t| ==> r[i] == t[i].0
  {
    seq(|t|, i requires 0 <= i < |t| => t[i].0)
  }

  /** `d.values()`, in insertion order. */
  function Values<V>(t: Table<V>): (r: seq<V>)
    ensures |r| == |t| && forall i :: 0 <= i < |t| ==> r[i] == t[i].1
  {
    seq(|t|, i requires 0 <= i < |t| => t[i].1)
  }

  /** No key appears twice: what a dict guarantees. */
  ghost predicate UniqueKeys<V>(t: Table<V>) {
    forall i, j :: 0 <= i < j < |t| ==> t[i].0 != t[j].0
  }

  /** Every entry is stored under the key its record gives. */
  ghost predicate WellKeyed<V>(t: Table<V>, key: V -> string) {
    forall i :: 0 <= i < |t| ==> t[i].0 == key(t[i].1)
  }

  /** The position of key `k`, or -1. */
  function IndexOfKey<V>(t: Table<V>, k: string): (i: int)
    ensures -1 <= i < |t|
    ensures 0 <= i ==> t[i].0 == k && forall j :: 0 <= j < i ==> t[j].0 != k
    ensures i == -1 ==> forall j :: 0 <= j < |t| ==> t[j].0 != k
  {
    if |t| == 0 then -1
    else if t[|t| - 1].0 != k then IndexOfKey(t[..|t| - 1], k)
    else
      var i := IndexOfKey(t[..|t| - 1], k);
      if i == -1 then |t| - 1 else i
  }

  /** `d.get(k)`: `k in d` and `d[k]` together. */
  function Get<V>(t: Table<V>, k: string): (r: Option<V>)
    ensures r.Some? <==> k in Keys(t)
  {
    var i := IndexOfKey(t, k);
    if i < 0 then None else Some(t[i].1)
  }

  /** `d[k] = v`: replaces the value of a key in its place, or appends a new entry. */
  function Put<V>(t: Table<V>, k: string, v: V): (r: Table<V>)
    ensures Get(r, k) == Some(v)
    ensures forall k' :: k' != k ==> Get(r, k') == Get(t, k')
    ensures Keys(r) == if k in Keys(t) then Keys(t) else Keys(t) + [k]
    ensures UniqueKeys(t) ==> UniqueKeys(r)
  {
    var i := IndexOfKey(t, k);
    if i < 0 then
      var r := t + [(k, v)];
      assert forall k' :: k' != k ==> IndexOfKey(r, k') == IndexOfKey(t, k') by {
        forall k' | k' != k ensures IndexOfKey(r, k') == IndexOfKey(t, k') {
          assert r[..|r| - 1] == t;
        }
      }
      r
    else
      var r := t[i := (k, v)];
      assert Keys(r) == Keys(t);
      r
  }

  /** `for v in vs: d[key(v)] = v`. */
  function PutAll<V>(t: Table<V>, vs: seq<V>, key: V -> string): Table<V>
  {
    if vs == [] then t
    else
      var v := vs[|vs| - 1];
      Put(PutAll(t, vs[..|vs| - 1], key), key(v), v)
  }

  /** The last record of `vs` whose key is `k`. */
  function LastWithKey<V>(vs: seq<V>, key: V -> string, k: string): (r: Option<V>)
    ensures r.Some? ==> r.value in vs && key(r.value) == k
    ensures r.None? ==> forall j :: 0 <= j < |vs| ==> key(vs[j]) != k
  {
    if vs == [] then None
    else if key(vs[|vs| - 1]) == k then Some(vs[|vs| - 1])
    else LastWithKey(vs[..|vs| - 1], key, k)
  }

  /** After inserting a batch of records, a key holds the last record of the
      batch with that key, and otherwise what it held before. */
  lemma {:induction false} GetPutAll<V>(t: Table<V>, vs: seq<V>, key: V -> string, k: string)
    ensures Get(PutAll(t, vs, key), k)
         == if LastWithKey(vs, key, k).Some? then LastWithKey(vs, key, k) else Get(t, k)
  {
    if vs != [] {
      GetPutAll(t, vs[..|vs| - 1], key, k);
    }
  }

  /** Inserting keeps keys unique and every entry under its record's key, and
      never reorders the keys already present. */
  lemma {:induction false} PutAllInvariant<V>(t: Table<V>, vs: seq<V>, key: V -> string)
    requires UniqueKeys(t) && WellKeyed(t, key)
    ensures UniqueKeys(PutAll(t, vs, key)) && WellKeyed(PutAll(t, vs, key), key)
    ensures |PutAll(t, vs, key)| >= |t|
    ensures Keys(PutAll(t, vs, key))[..|t|] == Keys(t)
  {
    if vs != [] {
      var init := vs[..|vs| - 1];
      var v := vs[|vs| - 1];
      PutAllInvariant(t, init, key);
      var t' := PutAll(t, init, key);
      PutWellKeyed(t', v, key);
      assert Keys(PutAll(t, vs, key))[..|t'|] == Keys(t');
      assert Keys(t')[..|t|] == Keys(t);
    }
  }

  lemma PutWellKeyed<V>(t: Table<V>, v: V, key: V -> string)
    requires WellKeyed(t, key)
    ensures WellKeyed(Put(t, key(v), v), key)
    ensures |Put(t, key(v), v)| >= |t|
  {
    var i := IndexOfKey(t, key(v));
    if i >= 0 {
      assert Put(t, key(v), v) == t[i := (key(v), v)];
    } else {
      assert Put(t, key(v), v) == t + [(key(v), v)];
    }
  }
}
