/** The `Dataset` object itself: the fields its methods update in place
    (shape, index list, meta record, tensors) and the sample-count bookkeeping,
    index routing, writes and flushes that act on them. A tensor is reduced to
    what the orchestrator asks of it: its first dimension, the writes it has
    received and how often it was flushed. */
module Datasets {
  import opened Outcomes
  import opened Strings
  import opened Slices
  import opened Views
  import opened Metadata
  import opened NestedDict
  import opened Routing
  import Lifecycle

  /** A value after `get_value` and `str_to_int`, ready to be stored. */
  datatype Payload = Payload(data: seq<int>)

  class Tensor {
    var size: nat
    var writes: seq<(seq<Slice>, Payload)>
    var flushes: nat

    constructor (size: nat)
      ensures this.size == size && writes == [] && flushes == 0
    {
      this.size := size;
      writes := [];
      flushes := 0;
    }

    /** `resize_shape(n)` on the tensor: its first dimension becomes n. */
    method ResizeShape(n: nat)
      modifies this
      ensures size == n && writes == old(writes) && flushes == old(flushes)
    {
      size := n;
    }

    /** `tensor[slices] = value` */
    method Write(slices: seq<Slice>, value: Payload)
      modifies this
      ensures writes == old(writes) + [(slices, value)] && size == old(size) && flushes == old(flushes)
    {
      writes := writes + [(slices, value)];
    }

    method Flush()
      modifies this
      ensures flushes == old(flushes) + 1 && size == old(size) && writes == old(writes)
    {
      flushes := flushes + 1;
    }
  }

  predicate Distinct(s: seq<string>) {
    forall i, j :: 0 <= i < j < |s| ==> s[i] != s[j]
  }

  /** `[i for i in indexes if keep(i)]`; the sample handed to the caller's
      predicate is determined by its index, so the predicate is taken on the index. */
  function Kept(s: seq<int>, keep: int -> bool): seq<int> {
    if |s| == 0 then [] else Kept(s[..|s| - 1], keep) + (if keep(s[|s| - 1]) then [s[|s| - 1]] else [])
  }

  /** An index is kept exactly when it is listed and satisfies the predicate. */
  lemma {:induction false} KeptMembers(s: seq<int>, keep: int -> bool)
    ensures forall x :: x in Kept(s, keep) <==> x in s && keep(x)
    ensures |Kept(s, keep)| <= |s|
  {
    if |s| > 0 {
      var m := |s| - 1;
      KeptMembers(s[..m], keep);
      assert s == s[..m] + [s[m]];
    }
  }

  predicate Increasing(s: seq<int>) {
    forall i, j :: 0 <= i < j < |s| ==> s[i] < s[j]
  }

  /** Filtering keeps the order: the kept indexes of an increasing list are increasing. */
  lemma {:induction false} KeptIncreasing(s: seq<int>, keep: int -> bool)
    requires Increasing(s)
    ensures Increasing(Kept(s, keep))
  {
    if |s| > 0 {
      var m := |s| - 1;
      assert Increasing(s[..m]);
      KeptIncreasing(s[..m], keep);
      KeptMembers(s[..m], keep);
      var r := Kept(s[..m], keep);
      forall i | 0 <= i < |r| ensures r[i] < s[m] {
        assert r[i] in r;
        var j :| 0 <= j < m && s[..m][j] == r[i];
        assert s[j] == r[i];
      }
    }
  }

  /** Two increasing lists with the same elements are equal. */
  lemma {:induction false} IncreasingUnique(a: seq<int>, b: seq<int>)
    requires Increasing(a) && Increasing(b)
    requires forall x :: x in a <==> x in b
    ensures a == b
  {
    if |a| > 0 {
      assert a[0] in a;
    }
    if |b| > 0 {
      assert b[0] in b;
    }
    if |a| > 0 && |b| > 0 {
      assert a[0] == b[0] by {
        assert a[0] in b && b[0] in a;
      }
      forall x ensures x in a[1..] <==> x in b[1..] {
        if x in a[1..] { assert x in b && x != b[0]; }
        if x in b[1..] { assert x in a && x != a[0]; }
      }
      IncreasingUnique(a[1..], b[1..]);
      assert a == [a[0]] + a[1..] && b == [b[0]] + b[1..];
    }
  }

  /** On the index list [0, n) the filter gives, in increasing order, exactly
      the samples below n that satisfy the predicate. */
  lemma FilterOnRange(n: nat, keep: int -> bool, r: seq<int>)
    requires Increasing(r) && forall x :: x in r <==> 0 <= x < n && keep(x)
    ensures Kept(Range(0, n), keep) == r
  {
    var s := Range(0, n);
    RangeAt(0, n);
    assert Increasing(s);
    KeptIncreasing(s, keep);
    KeptMembers(s, keep);
    forall x ensures x in s <==> 0 <= x < n {
      if 0 <= x < n { assert s[x] == x; }
    }
    IncreasingUnique(Kept(s, keep), r);
  }

  class Dataset {
    var mode: string
    var lazy: bool
    var shape: seq<nat>
    var indexes: seq<int>
    var schema: Schema
    var metaInfo: Option<map<string, string>>
    var name: Option<string>
    /** `self.meta` */
    var meta: Meta
    /** The meta.json record held by the storage map. */
    var stored: Meta
    /** The tensor keys in the order of `self._tensors`. */
    var keys: seq<string>
    var tensors: map<string, Tensor>

    /** The index list is [0, shape[0]), the meta record describes the
        dataset's shape and schema, the keys are the leaf paths schema
        flattening gives, every key has its own tensor, and every tensor's
        first dimension is the sample count. */
    ghost predicate Valid()
      reads this, tensors.Values
    {
      |shape| >= 1 && indexes == Range(0, shape[0]) &&
      meta.shape == shape && meta.schema == schema &&
      Distinct(keys) && LeafPaths(keys) &&
      (forall k :: k in tensors <==> k in keys) &&
      (forall k1, k2 :: k1 in tensors && k2 in tensors && k1 != k2 ==> tensors[k1] != tensors[k2]) &&
      (forall k :: k in tensors ==> tensors[k].size == shape[0])
    }

    /** The dataset an opening sequence produced, with one fresh tensor per
        key of its schema, each of the dataset's sample count. A created
        dataset ends with a flush, which flushes every tensor once; creation
        modes never contain "r", so that flush is never skipped. */
    constructor (o: Lifecycle.Opened, lazy: bool)
      requires |o.shape| >= 1 && o.indexes == Range(0, o.shape[0])
      requires o.meta.shape == o.shape && o.meta.schema == o.schema
      requires LeafPaths(KeysOf(o.schema))
      ensures Valid() && fresh(tensors.Values)
      ensures mode == o.mode && this.lazy == lazy && shape == o.shape && indexes == o.indexes
      ensures schema == o.schema && metaInfo == o.metaInfo && name == o.name && meta == o.meta && stored == o.stored
      ensures keys == KeysOf(o.schema)
      ensures forall k :: k in tensors ==> tensors[k].writes == [] && tensors[k].flushes == (if o.created then 1 else 0)
    {
      var ks := KeysOf(o.schema);
      var ts: map<string, Tensor> := map[];
      var i := 0;
      while i < |ks|
        invariant 0 <= i <= |ks|
        invariant forall k :: k in ts <==> k in ks[..i]
        invariant forall k :: k in ts ==> fresh(ts[k]) && ts[k].size == o.shape[0] && ts[k].writes == []
        invariant forall k :: k in ts ==> ts[k].flushes == (if o.created then 1 else 0)
        invariant forall k1, k2 :: k1 in ts && k2 in ts && k1 != k2 ==> ts[k1] != ts[k2]
      {
        var t := new Tensor(o.shape[0]);
        if o.created {
          t.Flush();
        }
        assert ks[..i + 1] == ks[..i] + [ks[i]];
        ts := ts[ks[i] := t];
        i := i + 1;
      }
      assert ks[..i] == ks;
      assert Distinct(ks);
      mode, this.lazy, shape, indexes := o.mode, lazy, o.shape, o.indexes;
      schema, metaInfo, name, meta, stored := o.schema, o.metaInfo, o.name, o.meta, o.stored;
      keys, tensors := ks, ts;
    }

    /** `len(ds)`: the number of samples, which is the length of the index list. */
    function Len(): (r: nat)
      reads this, tensors.Values
      requires Valid()
      ensures r == |indexes|
    {
      RangeAt(0, shape[0]);
      shape[0]
    }

    /** `resize_shape(n)`: nothing changes when n is the current sample count;
        otherwise the shape becomes (n,), the index list [0, n), the meta record
        is rewritten, and every tensor is resized to n. */
    method ResizeShape(n: nat)
      requires Valid()
      modifies this, tensors.Values
      ensures Valid()
      ensures keys == old(keys) && tensors == old(tensors) && mode == old(mode) && lazy == old(lazy)
      ensures schema == old(schema) && metaInfo == old(metaInfo) && name == old(name)
      ensures forall k :: k in tensors ==> tensors[k].writes == old(tensors[k].writes) && tensors[k].flushes == old(tensors[k].flushes)
      ensures n == old(shape[0]) ==> shape == old(shape) && indexes == old(indexes) && meta == old(meta) && stored == old(stored)
      ensures n != old(shape[0]) ==>
        shape == [n] && indexes == Range(0, n) && meta == StoreMeta([n], schema, metaInfo, name) && stored == meta
      ensures forall k :: k in tensors ==> tensors[k].size == n
    {
      if n == shape[0] {
        return;
      }
      shape := [n];
      indexes := Range(0, n);
      meta := StoreMeta(shape, schema, metaInfo, name);
      stored := meta;
      var i := 0;
      label L:
      while i < |keys|
        invariant 0 <= i <= |keys|
        invariant unchanged@L(this)
        invariant forall j :: 0 <= j < i ==> tensors[keys[j]].size == n
        invariant forall k :: k in tensors ==> tensors[k].writes == old(tensors[k].writes) && tensors[k].flushes == old(tensors[k].flushes)
      {
        tensors[keys[i]].ResizeShape(n);
        i := i + 1;
      }
    }

    /** `append_shape(k)`: resizes to the current sample count plus k, so
        k = 0 changes nothing and a negative k shrinks the dataset. */
    method AppendShape(k: int)
      requires Valid()
      requires shape[0] + k >= 0
      modifies this, tensors.Values
      ensures Valid()
      ensures shape[0] == old(shape[0]) + k && indexes == Range(0, old(shape[0]) + k)
      ensures keys == old(keys) && tensors == old(tensors) && mode == old(mode) && lazy == old(lazy)
      ensures schema == old(schema) && metaInfo == old(metaInfo) && name == old(name)
      ensures forall key :: key in tensors ==>
        tensors[key].writes == old(tensors[key].writes) && tensors[key].flushes == old(tensors[key].flushes)
      ensures k == 0 ==> shape == old(shape) && indexes == old(indexes) && meta == old(meta) && stored == old(stored)
      ensures k != 0 ==> shape == [old(shape[0]) + k] && meta == StoreMeta(shape, schema, metaInfo, name) && stored == meta
      ensures forall key :: key in tensors ==> tensors[key].size == old(shape[0]) + k
    {
      ResizeShape(shape[0] + k);
    }

    /** Some key is a string prefix of the subpath (the `for key in self.keys` scan). */
    method UnderKey(subpath: string) returns (b: bool)
      ensures b == UnderSomeKey(keys, subpath)
    {
      b := false;
      var i := 0;
      while i < |keys|
        invariant 0 <= i <= |keys|
        invariant b <==> exists j :: 0 <= j < i && StartsWith(subpath, keys[j])
      {
        if StartsWith(subpath, keys[i]) {
          b := true;
        }
        i := i + 1;
      }
    }

    /** `_get_dictionary(subpath, slice_)`, walking the keys in order. */
    method GetDictionary(subpath: string, slice: Option<Slice>) returns (r: Result<Tree>)
      requires Valid()
      ensures r == NestedDict.GetDictionary(keys, subpath, slice, shape[0], lazy)
      ensures slice != Some(Index(0)) ==> r == GetDictionaryAsWritten(keys, subpath, slice, shape[0], lazy)
    {
      LeafSliceDiscrepancy(slice, shape[0]);
      var prefix := Normalise(subpath);
      var es: seq<(string, Tree)> := [];
      var i := 0;
      while i < |keys|
        invariant 0 <= i <= |keys|
        invariant es == Fill(keys[..i], prefix, LeafSlice(slice, shape[0]), lazy)
      {
        var key := keys[i];
        assert keys[..i + 1][..i] == keys[..i] && keys[..i + 1][i] == key;
        if StartsWith(key, prefix) {
          var sl := LeafSlice(slice, shape[0]);
          es := InsertInto(es, PathOf(key, prefix), LeafOf(key, sl, lazy));
        }
        i := i + 1;
      }
      assert keys[..i] == keys;
      if |es| == 0 {
        r := Err(DictionaryKeyNotFound);
      } else {
        r := Ok(Dict(es));
      }
    }

    /** `ds[subpath, *slices]`, or `ds[*slices]` when subpath is "". */
    method GetItem(subpath: string, slices: seq<Slice>) returns (r: Result<Item>)
      requires Valid()
      ensures r == Routing.GetItem(keys, schema.top, shape[0], indexes, lazy, subpath, slices)
      ensures slices != [Index(0)] ==> r == GetItemAsWritten(keys, schema.top, shape[0], indexes, lazy, subpath, slices)
    {
      GetItemAsWrittenAgrees(keys, schema.top, shape[0], indexes, lazy, subpath, slices);
      var n := shape[0];
      if subpath == "" {
        if |slices| > 1 {
          return Err(MultipleSlicesWithoutKey);
        } else if |slices| == 0 {
          return Err(IndexOutOfRange);
        }
        var sel := Select(indexes, slices[0]);
        if sel.Err? {
          return Err(sel.error);
        }
        return Ok(Single(AsView(DatasetView(sel.value, lazy))));
      }
      var isKey := subpath in keys;
      if |slices| == 0 {
        if isKey {
          return Ok(Single(Deliver(TensorView(subpath, [Between(0, n)], lazy))));
        }
        var under := UnderKey(subpath);
        if under {
          return Ok(Single(Deliver(ObjectView(subpath, [Between(0, n)], lazy))));
        }
        var d := GetDictionary(subpath, None);
        if d.Err? {
          return Err(d.error);
        }
        return Ok(Nested(d.value));
      }
      var kind := TopKind(schema.top, subpath);
      if kind.Err? {
        return Err(kind.error);
      }
      if isKey && (kind.value != SequenceNode || |slices| <= 1) {
        return Ok(Single(Deliver(TensorView(subpath, slices, lazy))));
      }
      var under := UnderKey(subpath);
      if under {
        return Ok(Single(Deliver(ObjectView(subpath, slices, lazy))));
      }
      if |slices| > 1 {
        return Err(SliceOfDictionary);
      }
      var d := GetDictionary(subpath, Some(slices[0]));
      if d.Err? {
        return Err(d.error);
      }
      return Ok(Nested(d.value));
    }

    /** `ds[subpath, *slices] = value`: only the tensor under subpath receives
        the write, over the slices given or `[:]`; an error changes nothing. */
    method SetItem(subpath: string, slices: seq<Slice>, value: Payload) returns (r: Result<()>)
      requires Valid()
      modifies tensors.Values
      ensures Valid()
      ensures r.Ok? <==> SetTarget(keys, subpath, slices).Ok?
      ensures r.Err? ==> r.error == SetTarget(keys, subpath, slices).error
      ensures r.Ok? ==> tensors[subpath].writes == old(tensors[subpath].writes) + [(SetTarget(keys, subpath, slices).value, value)]
      ensures forall k :: k in tensors && (r.Err? || k != subpath) ==> tensors[k].writes == old(tensors[k].writes)
      ensures forall k :: k in tensors ==> tensors[k].size == old(tensors[k].size) && tensors[k].flushes == old(tensors[k].flushes)
    {
      var target := SetTarget(keys, subpath, slices);
      if target.Err? {
        return Err(target.error);
      }
      tensors[subpath].Write(target.value, value);
      r := Ok(());
    }

    /** `flush()`: a no-op in any mode containing "r" ("r" and "r+");
        otherwise every tensor is flushed and the meta information is saved
        into meta.json. */
    method Flush()
      requires Valid()
      modifies this, tensors.Values
      ensures Valid()
      ensures keys == old(keys) && tensors == old(tensors) && shape == old(shape) && indexes == old(indexes)
      ensures mode == old(mode) && meta == old(meta) && metaInfo == old(metaInfo) && schema == old(schema)
      ensures lazy == old(lazy) && name == old(name)
      ensures 'r' in mode ==> stored == old(stored)
      ensures 'r' in mode ==> forall k :: k in tensors ==> tensors[k].flushes == old(tensors[k].flushes)
      ensures 'r' !in mode ==> stored == old(stored).(metaInfo := metaInfo)
      ensures 'r' !in mode ==> forall k :: k in tensors ==> tensors[k].flushes == old(tensors[k].flushes) + 1
      ensures forall k :: k in tensors ==> tensors[k].size == old(tensors[k].size) && tensors[k].writes == old(tensors[k].writes)
    {
      if 'r' in mode {
        return;
      }
      var i := 0;
      while i < |keys|
        invariant 0 <= i <= |keys|
        invariant unchanged(this)
        invariant forall j :: 0 <= j < i ==> tensors[keys[j]].flushes == old(tensors[keys[j]].flushes) + 1
        invariant forall j :: i <= j < |keys| ==> tensors[keys[j]].flushes == old(tensors[keys[j]].flushes)
        invariant forall k :: k in tensors ==> tensors[k].size == old(tensors[k].size) && tensors[k].writes == old(tensors[k].writes)
      {
        tensors[keys[i]].Flush();
        i := i + 1;
      }
      stored := stored.(metaInfo := metaInfo);
    }

    /** `filter(fn)`: a dataset view over the indexes whose samples satisfy
        the predicate, in their original order. */
    method Filter(keep: int -> bool) returns (v: View)
      ensures v == DatasetView(Many(Kept(indexes, keep)), lazy)
    {
      var r: seq<int> := [];
      var i := 0;
      while i < |indexes|
        invariant 0 <= i <= |indexes|
        invariant r == Kept(indexes[..i], keep)
      {
        assert indexes[..i + 1][..i] == indexes[..i];
        if keep(indexes[i]) {
          r := r + [indexes[i]];
        }
        i := i + 1;
      }
      assert indexes[..i] == indexes;
      v := DatasetView(Many(r), lazy);
    }
  }
}
