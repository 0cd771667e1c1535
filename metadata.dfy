/** The dataset's schema as far as the orchestrator consults it, the meta
    record stored in meta.json, and the checks made when an existing dataset
    is reopened with a shape or a schema given. */
module Metadata {
  import opened Outcomes
  import opened Sorting

  /** The only thing routing asks of a top-level schema node: is it a `Sequence`? */
  datatype NodeKind = SequenceNode | OtherNode

  /** One tensor of the flattened schema: its "/"-separated key and the name
      of the compressor it is stored with. */
  datatype TensorSpec = TensorSpec(key: string, compressor: string)

  /** A schema: its top-level nodes (the keys of `schema.dict_`, in order) and
      its flattened tensors. Flattening itself is not part of this model; its
      output is carried along. */
  datatype Schema = Schema(top: seq<(string, NodeKind)>, tensors: seq<TensorSpec>)

  /** The record written to meta.json. Its meta information may be null
      (None), which `_save_meta` writes when the dataset holds none. */
  datatype Meta = Meta(shape: seq<nat>, schema: Schema, version: int, metaInfo: Option<map<string, string>>,
                       name: Option<string>)

  /** The top-level key names of a schema, in order. */
  function TopNames(s: Schema): (r: seq<string>)
    ensures |r| == |s.top|
    ensures forall i :: 0 <= i < |r| ==> r[i] == s.top[i].0
  {
    seq(|s.top|, i requires 0 <= i < |s.top| => s.top[i].0)
  }

  /** The tensor keys of a schema, in the order flattening yields them. */
  function KeysOf(s: Schema): (r: seq<string>)
    ensures |r| == |s.tensors|
    ensures forall i :: 0 <= i < |r| ==> r[i] == s.tensors[i].key
  {
    seq(|s.tensors|, i requires 0 <= i < |s.tensors| => s.tensors[i].key)
  }

  /** `info or dict()`: absent meta information reads as the empty dict (an
      empty dict, falsy too, is replaced by an equal one). */
  function OrEmpty(info: Option<map<string, string>>): map<string, string> {
    if info.Some? then info.value else map[]
  }

  /** The meta record of a dataset with the given state. Format version 1;
      absent meta information is stored as the empty dict. */
  function StoreMeta(shape: seq<nat>, schema: Schema, metaInfo: Option<map<string, string>>, name: Option<string>): (m: Meta)
    ensures m.version == 1 && m.metaInfo.Some?
    ensures m.shape == shape && m.schema == schema && m.metaInfo == Some(OrEmpty(metaInfo)) && m.name == name
  {
    Meta(shape, schema, 1, Some(OrEmpty(metaInfo)), name)
  }

  /** `self.meta.get("name") or None`: an empty stored name reads as no name. */
  function NameOf(stored: Option<string>): (r: Option<string>)
    ensures r.Some? <==> stored.Some? && stored.value != ""
    ensures r.Some? ==> r == stored
  {
    if stored.Some? && stored.value != "" then stored else None
  }

  /** The caller's shape, one entry per dimension with None for "unknown",
      equals the stored shape. */
  predicate ShapeMatches(arg: seq<Option<nat>>, stored: seq<nat>) {
    |arg| == |stored| && forall i :: 0 <= i < |arg| ==> arg[i] == Some(stored[i])
  }

  /** The checks after the stored meta has been read back: a caller shape other
      than (None,) must equal the stored one, and a caller schema must have the
      same sorted list of top-level keys. */
  function ReopenCheck(shape: seq<Option<nat>>, schema: Option<Schema>, stored: Meta): Result<()> {
    if shape != [None] && !ShapeMatches(shape, stored.shape) then Err(ShapeMismatch)
    else if schema.Some? && Sort(TopNames(schema.value)) != Sort(TopNames(stored.schema)) then Err(SchemaMismatch)
    else Ok(())
  }

  /** The shape is checked first; (None,) always passes it. */
  lemma ReopenShape(shape: seq<Option<nat>>, schema: Option<Schema>, stored: Meta)
    ensures shape != [None] && !ShapeMatches(shape, stored.shape) ==> ReopenCheck(shape, schema, stored) == Err(ShapeMismatch)
    ensures ReopenCheck(shape, schema, stored) == Err(ShapeMismatch) ==> shape != [None] && !ShapeMatches(shape, stored.shape)
  {
  }

  /** The schema comparison ignores the order of the top-level keys: a schema
      passes exactly when it has the stored top-level keys, each as often. */
  lemma ReopenSchemaOrderFree(shape: seq<Option<nat>>, schema: Option<Schema>, stored: Meta)
    requires shape == [None] || ShapeMatches(shape, stored.shape)
    ensures ReopenCheck(shape, schema, stored).Ok? <==>
      (schema.None? || multiset(TopNames(schema.value)) == multiset(TopNames(stored.schema)))
    ensures ReopenCheck(shape, schema, stored).Err? ==> ReopenCheck(shape, schema, stored) == Err(SchemaMismatch)
  {
    if schema.Some? {
      SortedEqualIffSameElements(TopNames(schema.value), TopNames(stored.schema));
    }
  }

  /** Reopening with the stored shape and the stored schema, its top-level
      keys in any order, always passes. */
  lemma ReopenWithOwnMeta(stored: Meta, top: seq<(string, NodeKind)>)
    requires multiset(TopNames(Schema(top, []))) == multiset(TopNames(stored.schema))
    ensures ReopenCheck(seq(|stored.shape|, i requires 0 <= i < |stored.shape| => Some(stored.shape[i])),
                        Some(Schema(top, [])), stored) == Ok(())
  {
    var arg := seq(|stored.shape|, i requires 0 <= i < |stored.shape| => Some(stored.shape[i]));
    assert ShapeMatches(arg, stored.shape);
    ReopenSchemaOrderFree(arg, Some(Schema(top, [])), stored);
  }

  /** A meta record written by `_store_meta` reads back as the state it was
      written from: reopening with its own shape and schema, or with none,
      passes; a name other than "" comes back unchanged; the meta
      information comes back with None read as the empty dict. */
  lemma StoreMetaReadsBack(shape: seq<nat>, schema: Schema, metaInfo: Option<map<string, string>>, name: Option<string>)
    ensures var m := StoreMeta(shape, schema, metaInfo, name);
      ReopenCheck([None], None, m) == Ok(()) &&
      ReopenCheck(seq(|shape|, i requires 0 <= i < |shape| => Some(shape[i])), Some(schema), m) == Ok(()) &&
      (NameOf(m.name) == name <==> name != Some("")) &&
      OrEmpty(m.metaInfo) == OrEmpty(metaInfo) && m.version == 1
  {
    var arg := seq(|shape|, i requires 0 <= i < |shape| => Some(shape[i]));
    assert ShapeMatches(arg, shape);
  }
}
