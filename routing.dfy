/** Index routing of `Dataset.__getitem__` and `Dataset.__setitem__`, given the
    subpath and the list of index expressions that `slice_split` has already
    separated. A subpath of "" stands for a missing one. */
module Routing {
  import opened Outcomes
  import opened Strings
  import opened Slices
  import opened Views
  import opened Metadata
  import opened NestedDict

  /** What a read returns: one view (or its computed value), or a nested dict of them. */
  datatype Item = Single(value: Value) | Nested(tree: Tree)

  /** Some tensor key is a string prefix of the subpath. */
  predicate UnderSomeKey(keys: seq<string>, subpath: string) {
    exists i :: 0 <= i < |keys| && StartsWith(subpath, keys[i])
  }

  /** `self.schema.dict_[subpath.split("/")[1]]`, reduced to whether that node is a `Sequence`. */
  function TopKind(top: seq<(string, NodeKind)>, subpath: string): Result<NodeKind> {
    var parts := Split(subpath, '/');
    if |parts| < 2 then Err(IndexOutOfRange)
    else LookupTop(top, parts[1])
  }

  function LookupTop(top: seq<(string, NodeKind)>, name: string): (r: Result<NodeKind>)
    ensures r.Ok? ==> (name, r.value) in top
    ensures r.Err? ==> r.error == SchemaKeyNotFound && forall i :: 0 <= i < |top| ==> top[i].0 != name
  {
    if |top| == 0 then Err(SchemaKeyNotFound)
    else if top[0].0 == name then Ok(top[0].1)
    else LookupTop(top[1..], name)
  }

  /** `ds[...]` for a dataset with tensor keys `keys` (in order), top-level
      schema nodes `top`, `n` samples, index list `indexes` and laziness `lazy`. */
  function GetItem(keys: seq<string>, top: seq<(string, NodeKind)>, n: nat, indexes: seq<int>, lazy: bool,
                   subpath: string, slices: seq<Slice>): Result<Item>
  {
    if subpath == "" then
      if |slices| > 1 then Err(MultipleSlicesWithoutKey)
      else if |slices| == 0 then Err(IndexOutOfRange)
      else
        match Select(indexes, slices[0])
        case Err(e) => Err(e)
        case Ok(sel) => Ok(Single(AsView(DatasetView(sel, lazy))))
    else if |slices| == 0 then
      if subpath in keys then Ok(Single(Deliver(TensorView(subpath, [Between(0, n)], lazy))))
      else if UnderSomeKey(keys, subpath) then Ok(Single(Deliver(ObjectView(subpath, [Between(0, n)], lazy))))
      else
        match GetDictionary(keys, subpath, None, n, lazy)
        case Err(e) => Err(e)
        case Ok(t) => Ok(Nested(t))
    else
      match TopKind(top, subpath)
      case Err(e) => Err(e)
      case Ok(kind) =>
        if subpath in keys && (kind != SequenceNode || |slices| <= 1) then
          Ok(Single(Deliver(TensorView(subpath, slices, lazy))))
        else if UnderSomeKey(keys, subpath) then Ok(Single(Deliver(ObjectView(subpath, slices, lazy))))
        else if |slices| > 1 then Err(SliceOfDictionary)
        else
          match GetDictionary(keys, subpath, Some(slices[0]), n, lazy)
          case Err(e) => Err(e)
          case Ok(t) => Ok(Nested(t))
  }

  /** `__getitem__` exactly as written: the dictionary branch takes its leaf
      slice from `slice_ or slice(0, n)`, which also discards the index 0. */
  function GetItemAsWritten(keys: seq<string>, top: seq<(string, NodeKind)>, n: nat, indexes: seq<int>, lazy: bool,
                            subpath: string, slices: seq<Slice>): Result<Item>
  {
    if subpath == "" then
      if |slices| > 1 then Err(MultipleSlicesWithoutKey)
      else if |slices| == 0 then Err(IndexOutOfRange)
      else
        match Select(indexes, slices[0])
        case Err(e) => Err(e)
        case Ok(sel) => Ok(Single(AsView(DatasetView(sel, lazy))))
    else if |slices| == 0 then
      if subpath in keys then Ok(Single(Deliver(TensorView(subpath, [Between(0, n)], lazy))))
      else if UnderSomeKey(keys, subpath) then Ok(Single(Deliver(ObjectView(subpath, [Between(0, n)], lazy))))
      else
        match GetDictionaryAsWritten(keys, subpath, None, n, lazy)
        case Err(e) => Err(e)
        case Ok(t) => Ok(Nested(t))
    else
      match TopKind(top, subpath)
      case Err(e) => Err(e)
      case Ok(kind) =>
        if subpath in keys && (kind != SequenceNode || |slices| <= 1) then
          Ok(Single(Deliver(TensorView(subpath, slices, lazy))))
        else if UnderSomeKey(keys, subpath) then Ok(Single(Deliver(ObjectView(subpath, slices, lazy))))
        else if |slices| > 1 then Err(SliceOfDictionary)
        else
          match GetDictionaryAsWritten(keys, subpath, Some(slices[0]), n, lazy)
          case Err(e) => Err(e)
          case Ok(t) => Ok(Nested(t))
  }

  /** The read as written and the corrected read agree on every input but
      one: a subpath under no key read with the single index 0, where the
      source builds the dictionary of whole-range views that a read without
      slices gives. */
  lemma GetItemAsWrittenAgrees(keys: seq<string>, top: seq<(string, NodeKind)>, n: nat, indexes: seq<int>, lazy: bool,
                               subpath: string, slices: seq<Slice>)
    ensures slices != [Index(0)] ==>
      GetItemAsWritten(keys, top, n, indexes, lazy, subpath, slices) == GetItem(keys, top, n, indexes, lazy, subpath, slices)
    ensures slices == [Index(0)] && subpath != "" && subpath !in keys && !UnderSomeKey(keys, subpath) &&
            TopKind(top, subpath).Ok? ==>
      GetItemAsWritten(keys, top, n, indexes, lazy, subpath, slices) == GetItem(keys, top, n, indexes, lazy, subpath, [])
    ensures slices == [Index(0)] && (subpath == "" || subpath in keys || UnderSomeKey(keys, subpath) ||
                                     TopKind(top, subpath).Err?) ==>
      GetItemAsWritten(keys, top, n, indexes, lazy, subpath, slices) == GetItem(keys, top, n, indexes, lazy, subpath, slices)
  {
    LeafSliceDiscrepancy(None, n);
    if |slices| == 1 {
      LeafSliceDiscrepancy(Some(slices[0]), n);
    }
  }

  /** Without a subpath: more than one slice is an error, and otherwise the
      result is a lazy dataset view over `indexes[slice]`. */
  lemma DatasetRoute(keys: seq<string>, top: seq<(string, NodeKind)>, n: nat, indexes: seq<int>, lazy: bool, slices: seq<Slice>)
    ensures |slices| > 1 ==> GetItem(keys, top, n, indexes, lazy, "", slices) == Err(MultipleSlicesWithoutKey)
    ensures |slices| == 1 && Select(indexes, slices[0]).Ok? ==>
      GetItem(keys, top, n, indexes, lazy, "", slices) ==
        Ok(Single(AsView(DatasetView(Select(indexes, slices[0]).value, lazy))))
    ensures GetItem(keys, top, n, indexes, lazy, "", slices).Ok? ==>
      |slices| == 1 && Select(indexes, slices[0]).Ok?
  {
  }

  /** On the index list [0, n) of a freshly opened dataset, `ds[a:b]` with
      in-range bounds views exactly the samples a..b. */
  lemma DatasetRouteOnRange(keys: seq<string>, top: seq<(string, NodeKind)>, n: nat, lazy: bool, a: nat, b: nat)
    requires a <= b <= n
    ensures GetItem(keys, top, n, Range(0, n), lazy, "", [Between(a, b)]) ==
      Ok(Single(AsView(DatasetView(Many(Range(a, b)), lazy))))
  {
    SelectOnRange(n, a, b);
  }

  /** A tensor key read without slices gives its tensor view over the whole
      sample range [0, n). */
  lemma TensorRouteWhole(keys: seq<string>, top: seq<(string, NodeKind)>, n: nat, indexes: seq<int>, lazy: bool, subpath: string)
    requires subpath != "" && subpath in keys
    ensures GetItem(keys, top, n, indexes, lazy, subpath, []) == Ok(Single(Deliver(TensorView(subpath, [Between(0, n)], lazy))))
  {
  }

  /** A tensor key read with slices gives its tensor view over those slices
      when its top-level node is not a Sequence or there is at most one slice;
      a Sequence node read with several slices gives an object view instead,
      because the key is a prefix of itself. */
  lemma TensorRouteSliced(keys: seq<string>, top: seq<(string, NodeKind)>, n: nat, indexes: seq<int>, lazy: bool,
                          subpath: string, slices: seq<Slice>)
    requires subpath in keys && |slices| > 0
    requires TopKind(top, subpath).Ok?
    ensures TopKind(top, subpath).value != SequenceNode || |slices| <= 1 ==>
      GetItem(keys, top, n, indexes, lazy, subpath, slices) == Ok(Single(Deliver(TensorView(subpath, slices, lazy))))
    ensures TopKind(top, subpath).value == SequenceNode && |slices| > 1 ==>
      GetItem(keys, top, n, indexes, lazy, subpath, slices) == Ok(Single(Deliver(ObjectView(subpath, slices, lazy))))
  {
    var i :| 0 <= i < |keys| && keys[i] == subpath;
    assert StartsWith(subpath, keys[i]);
  }

  /** With slices the schema is consulted first: a subpath with no second
      "/"-component raises IndexError and an unknown top-level name raises
      KeyError, key or not. */
  lemma SchemaLookupFirst(keys: seq<string>, top: seq<(string, NodeKind)>, n: nat, indexes: seq<int>, lazy: bool,
                          subpath: string, slices: seq<Slice>)
    requires subpath != "" && |slices| > 0
    requires TopKind(top, subpath).Err?
    ensures GetItem(keys, top, n, indexes, lazy, subpath, slices) == Err(TopKind(top, subpath).error)
    ensures TopKind(top, subpath).error in {IndexOutOfRange, SchemaKeyNotFound}
  {
  }

  /** A subpath that is not a key but continues one gives an object view over
      the slices given, or over [0, n) when there are none. */
  lemma ObjectRoute(keys: seq<string>, top: seq<(string, NodeKind)>, n: nat, indexes: seq<int>, lazy: bool,
                    subpath: string, slices: seq<Slice>)
    requires subpath != "" && subpath !in keys && UnderSomeKey(keys, subpath)
    requires |slices| > 0 ==> TopKind(top, subpath).Ok?
    ensures GetItem(keys, top, n, indexes, lazy, subpath, slices) ==
      Ok(Single(Deliver(ObjectView(subpath, if |slices| == 0 then [Between(0, n)] else slices, lazy))))
  {
  }

  /** A subpath under no key reads as a dictionary: of whole-range views when
      no slice is given, of views over the one slice given, and an error for
      several slices. As written, the read with the single index 0 is the
      read without slices. */
  lemma DictionaryRoute(keys: seq<string>, top: seq<(string, NodeKind)>, n: nat, indexes: seq<int>, lazy: bool,
                        subpath: string, slices: seq<Slice>)
    requires subpath != "" && !UnderSomeKey(keys, subpath)
    requires |slices| > 0 ==> TopKind(top, subpath).Ok?
    ensures |slices| > 1 ==> GetItem(keys, top, n, indexes, lazy, subpath, slices) == Err(SliceOfDictionary)
    ensures |slices| <= 1 ==>
      var d := GetDictionary(keys, subpath, if |slices| == 0 then None else Some(slices[0]), n, lazy);
      GetItem(keys, top, n, indexes, lazy, subpath, slices) == (if d.Ok? then Ok(Nested(d.value)) else Err(d.error))
    ensures |slices| > 1 ==> GetItemAsWritten(keys, top, n, indexes, lazy, subpath, slices) == Err(SliceOfDictionary)
    ensures |slices| <= 1 ==>
      var d := GetDictionaryAsWritten(keys, subpath, if |slices| == 0 then None else Some(slices[0]), n, lazy);
      GetItemAsWritten(keys, top, n, indexes, lazy, subpath, slices) == (if d.Ok? then Ok(Nested(d.value)) else Err(d.error))
    ensures slices == [Index(0)] ==>
      GetItemAsWritten(keys, top, n, indexes, lazy, subpath, slices) == GetItem(keys, top, n, indexes, lazy, subpath, [])
  {
    KeysAreUnderThemselves(keys);
    LeafSliceDiscrepancy(None, n);
  }

  /** Every key is a prefix of itself. */
  lemma KeysAreUnderThemselves(keys: seq<string>)
    ensures forall k :: k in keys ==> UnderSomeKey(keys, k)
  {
    forall k | k in keys ensures UnderSomeKey(keys, k) {
      var i :| 0 <= i < |keys| && keys[i] == k;
      assert StartsWith(k, keys[i]);
    }
  }

  /** The prefix test has no "/" boundary: with the one key "/image", the
      subpath "/images" reads as an object view. */
  lemma PrefixWithoutBoundary(n: nat, indexes: seq<int>)
    ensures GetItem(["/image"], [], n, indexes, true, "/images", []) ==
      Ok(Single(AsView(ObjectView("/images", [Between(0, n)], true))))
  {
    assert StartsWith("/images", (["/image"])[0]);
  }

  /** A view handed out for a key-level read carries the subpath it was asked
      for, and is delivered uncomputed exactly when the dataset is lazy. */
  lemma ViewsCarrySubpath(keys: seq<string>, top: seq<(string, NodeKind)>, n: nat, indexes: seq<int>, lazy: bool,
                          subpath: string, slices: seq<Slice>)
    requires subpath != ""
    requires GetItem(keys, top, n, indexes, lazy, subpath, slices).Ok?
    requires GetItem(keys, top, n, indexes, lazy, subpath, slices).value.Single?
    ensures var v := GetItem(keys, top, n, indexes, lazy, subpath, slices).value.value;
      var w := if v.AsView? then v.view else v.of;
      (v.AsView? <==> lazy) && !w.DatasetView? && w.subpath == subpath &&
      w.slices == if |slices| == 0 then [Between(0, n)] else slices
  {
  }

  /** The written slices of `ds[subpath, *slices] = value`: the whole range `[:]`
      when none are given. */
  function SetTarget(keys: seq<string>, subpath: string, slices: seq<Slice>): Result<seq<Slice>> {
    if subpath == "" then Err(AssignWithoutSubpath)
    else if subpath !in keys then Err(KeyNotFound)
    else if |slices| == 0 then Ok([Whole])
    else Ok(slices)
  }

  /** A write goes to a tensor key, over the slices given or `[:]`. */
  lemma SetTargetCases(keys: seq<string>, subpath: string, slices: seq<Slice>)
    ensures SetTarget(keys, subpath, slices).Ok? <==> subpath != "" && subpath in keys
    ensures subpath == "" ==> SetTarget(keys, subpath, slices) == Err(AssignWithoutSubpath)
    ensures subpath != "" && subpath !in keys ==> SetTarget(keys, subpath, slices) == Err(KeyNotFound)
    ensures SetTarget(keys, subpath, slices).Ok? ==>
      SetTarget(keys, subpath, slices).value == if |slices| == 0 then [Whole] else slices
  {
  }
}
