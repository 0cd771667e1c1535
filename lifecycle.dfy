/** The opening sequence of `Dataset.__init__`: shape check, mode, directory
    preparation, then either reading the stored meta back and checking the
    caller's arguments against it, or creating the dataset, and finally the
    index list and the hub name. The filesystem answers through `Facts`; the
    changes it is asked to make are returned in order. */
module Lifecycle {
  import opened Outcomes
  import opened Slices
  import opened Modes
  import opened Compressors
  import opened Metadata
  import opened HubPaths

  /** The constructor's arguments after `norm_shape` and `featurify`: a shape
      with None for unknown entries, a schema if one was given, the mode ("" =
      infer), the meta information (None when the caller passes None; the
      default is the empty dict) and the name. */
  datatype Args = Args(path: string, mode: string, shape: seq<Option<nat>>, schema: Option<Schema>,
                       metaInfo: Option<map<string, string>>, name: Option<string>)

  /** What the filesystem answers: the directory facts, whether the write
      probe of mode inference succeeds, and the meta record stored in
      meta.json (consulted only when that file exists). */
  datatype Facts = Facts(dir: DirFacts, probeWritable: bool, stored: Meta)

  /** The state of an opened dataset: `meta` is `self.meta`, `stored` what
      meta.json holds when the constructor returns. */
  datatype Opened = Opened(mode: string, created: bool, shape: seq<nat>, schema: Schema, meta: Meta, stored: Meta,
                           metaInfo: Option<map<string, string>>, name: Option<string>, indexes: seq<int>,
                           hub: Option<HubName>)

  /** The filesystem changes made, and the dataset or the exception raised. */
  datatype Outcome = Outcome(actions: seq<FsAction>, result: Result<Opened>)

  /** Every tensor's compressor name is one `_get_compressor` accepts. */
  predicate CompressorsKnown(tensors: seq<TensorSpec>) {
    forall i :: 0 <= i < |tensors| ==> GetCompressor(tensors[i].compressor).Ok?
  }

  /** The common tail: the index list [0, shape[0]) and the hub name. */
  function Finish(actions: seq<FsAction>, path: string, mode: string, created: bool, shape: seq<nat>, schema: Schema,
                  meta: Meta, stored: Meta, metaInfo: Option<map<string, string>>, name: Option<string>): Outcome {
    if |shape| == 0 then Outcome(actions, Err(IndexOutOfRange))
    else
      match ParseHubPath(path)
      case Err(e) => Outcome(actions, Err(e))
      case Ok(hub) =>
        Outcome(actions, Ok(Opened(mode, created, shape, schema, meta, stored, metaInfo, name, Range(0, shape[0]), hub)))
  }

  function Init(a: Args, f: Facts): Outcome {
    if |a.shape| != 1 then Outcome([], Err(ShapeLength))
    else
      match GetMode(a.mode, f.dir.dirExists, f.dir.metaExists, f.probeWritable)
      case Err(e) => Outcome([], Err(e))
      case Ok(mode) =>
        match CheckAndPrepareDir(a.path, mode, f.dir)
        case Err(e) => Outcome([], Err(e))
        case Ok(prep) =>
          if !prep.needCreate then
            match ReopenCheck(a.shape, a.schema, f.stored)
            case Err(e) => Outcome(prep.actions, Err(e))
            case Ok(_) =>
              Finish(prep.actions, a.path, mode, false, f.stored.shape, f.stored.schema, f.stored, f.stored,
                     Some(OrEmpty(f.stored.metaInfo)), NameOf(f.stored.name))
          else if a.shape[0].None? then Outcome(prep.actions, Err(ShapeArgumentNotFound))
          else if a.schema.None? then Outcome(prep.actions, Err(SchemaArgumentNotFound))
          else
            var shape := [a.shape[0].value];
            var meta := StoreMeta(shape, a.schema.value, a.metaInfo, a.name);
            if !CompressorsKnown(a.schema.value.tensors) then
              // the rollback: the partly created dataset is removed, the error re-raised
              Outcome(prep.actions + [RemoveTree], Err(WrongCompressor))
            else
              // creation ends with a flush, whose `_save_meta` writes the meta
              // information as given, None included
              Finish(prep.actions, a.path, mode, true, shape, a.schema.value, meta, meta.(metaInfo := a.metaInfo),
                     a.metaInfo, a.name)
  }

  /** A successful opening, step by step: the mode and the directory
      preparation succeeded and the result is the common tail of either the
      reopen or the creation branch. */
  lemma InitOk(a: Args, f: Facts)
    requires Init(a, f).result.Ok?
    ensures |a.shape| == 1 && GetMode(a.mode, f.dir.dirExists, f.dir.metaExists, f.probeWritable).Ok?
    ensures var mode := GetMode(a.mode, f.dir.dirExists, f.dir.metaExists, f.probeWritable).value;
      CheckAndPrepareDir(a.path, mode, f.dir).Ok? &&
      var prep := CheckAndPrepareDir(a.path, mode, f.dir).value;
      if !prep.needCreate then
        ReopenCheck(a.shape, a.schema, f.stored).Ok? &&
        Init(a, f) == Finish(prep.actions, a.path, mode, false, f.stored.shape, f.stored.schema, f.stored, f.stored,
                             Some(OrEmpty(f.stored.metaInfo)), NameOf(f.stored.name))
      else
        a.shape[0].Some? && a.schema.Some? && CompressorsKnown(a.schema.value.tensors) &&
        var meta := StoreMeta([a.shape[0].value], a.schema.value, a.metaInfo, a.name);
        Init(a, f) == Finish(prep.actions, a.path, mode, true, [a.shape[0].value], a.schema.value,
                             meta, meta.(metaInfo := a.metaInfo), a.metaInfo, a.name)
  {
  }

  /** The common tail succeeds with the given state, [0, shape[0]) and the
      parsed hub name. */
  lemma FinishOk(actions: seq<FsAction>, path: string, mode: string, created: bool, shape: seq<nat>, schema: Schema,
                 meta: Meta, stored: Meta, metaInfo: Option<map<string, string>>, name: Option<string>)
    requires Finish(actions, path, mode, created, shape, schema, meta, stored, metaInfo, name).result.Ok?
    ensures |shape| >= 1 && ParseHubPath(path).Ok?
    ensures Finish(actions, path, mode, created, shape, schema, meta, stored, metaInfo, name) ==
      Outcome(actions, Ok(Opened(mode, created, shape, schema, meta, stored, metaInfo, name, Range(0, shape[0]),
                                 ParseHubPath(path).value)))
  {
  }

  /** Both branches of a successful opening, through the common tail. */
  lemma InitFinished(a: Args, f: Facts)
    requires Init(a, f).result.Ok?
    ensures |a.shape| == 1 && ParseHubPath(a.path).Ok?
    ensures var mode := GetMode(a.mode, f.dir.dirExists, f.dir.metaExists, f.probeWritable).value;
      var prep := CheckAndPrepareDir(a.path, mode, f.dir).value;
      var o := Init(a, f).result.value;
      Init(a, f).actions == prep.actions && o.mode == mode && o.created == prep.needCreate &&
      o.indexes == Range(0, o.shape[0]) && o.hub == ParseHubPath(a.path).value &&
      (!o.created ==> o.shape == f.stored.shape && o.schema == f.stored.schema && o.meta == f.stored &&
                      o.stored == f.stored && o.metaInfo == Some(OrEmpty(f.stored.metaInfo)) &&
                      o.name == NameOf(f.stored.name)) &&
      (o.created ==> a.shape[0].Some? && a.schema.Some? && CompressorsKnown(a.schema.value.tensors) &&
                     o.shape == [a.shape[0].value] && o.schema == a.schema.value &&
                     o.meta == StoreMeta(o.shape, o.schema, a.metaInfo, a.name) &&
                     o.stored == o.meta.(metaInfo := a.metaInfo) && o.metaInfo == a.metaInfo && o.name == a.name)
  {
    InitOk(a, f);
    var mode := GetMode(a.mode, f.dir.dirExists, f.dir.metaExists, f.probeWritable).value;
    var prep := CheckAndPrepareDir(a.path, mode, f.dir).value;
    if !prep.needCreate {
      FinishOk(prep.actions, a.path, mode, false, f.stored.shape, f.stored.schema, f.stored, f.stored,
               Some(OrEmpty(f.stored.metaInfo)), NameOf(f.stored.name));
    } else {
      var meta := StoreMeta([a.shape[0].value], a.schema.value, a.metaInfo, a.name);
      FinishOk(prep.actions, a.path, mode, true, [a.shape[0].value], a.schema.value, meta,
               meta.(metaInfo := a.metaInfo), a.metaInfo, a.name);
    }
  }

  /** A shape of any length other than one is rejected before anything else. */
  lemma ShapeLengthFirst(a: Args, f: Facts)
    ensures |a.shape| != 1 <==> Init(a, f) == Outcome([], Err(ShapeLength))
  {
  }

  /** What every opened dataset satisfies: a valid mode, the index list
      [0, shape[0]), the meta record describing its shape and schema, and
      `created` exactly when no meta.json was there to open or the mode
      overwrites. meta.json then holds `self.meta`, except that a creation's
      flush has written the meta information as given. */
  lemma OpenedInvariant(a: Args, f: Facts)
    requires Init(a, f).result.Ok?
    ensures var o := Init(a, f).result.value;
      o.mode in ValidModes && |o.shape| >= 1 && o.indexes == Range(0, o.shape[0]) &&
      o.meta.shape == o.shape && o.meta.schema == o.schema &&
      (o.created <==> !f.dir.metaExists || 'w' in o.mode) &&
      (a.mode != "" ==> o.mode == a.mode) &&
      o.stored == (if o.created then o.meta.(metaInfo := o.metaInfo) else o.meta)
  {
    ModeAlwaysValid(a.mode, f.dir.dirExists, f.dir.metaExists, f.probeWritable);
    InitFinished(a, f);
  }

  /** A created dataset has the caller's one-dimensional shape and schema and a
      fresh version-1 meta record of them, whose meta information is the
      caller's or, when the caller passed None, the empty dict. */
  lemma CreatedFromArguments(a: Args, f: Facts)
    requires Init(a, f).result.Ok? && Init(a, f).result.value.created
    ensures var o := Init(a, f).result.value;
      a.shape[0].Some? && a.schema.Some? && o.shape == [a.shape[0].value] && o.schema == a.schema.value &&
      o.meta == StoreMeta(o.shape, o.schema, a.metaInfo, a.name) && o.meta.version == 1 &&
      o.meta.metaInfo == (if a.metaInfo.Some? then a.metaInfo else Some(map[])) &&
      o.metaInfo == a.metaInfo && o.name == a.name &&
      CompressorsKnown(o.schema.tensors)
  {
    InitFinished(a, f);
  }

  /** A reopened dataset takes its shape, schema and meta information from
      meta.json (a null stored meta information reads as the empty dict), and
      its name unless the stored one is empty; no filesystem change is made. */
  lemma ReopenedFromMeta(a: Args, f: Facts)
    requires Init(a, f).result.Ok? && !Init(a, f).result.value.created
    ensures var o := Init(a, f).result.value;
      f.dir.metaExists && o.meta == f.stored && o.stored == f.stored &&
      o.shape == f.stored.shape && o.schema == f.stored.schema &&
      o.metaInfo == (if f.stored.metaInfo.Some? then f.stored.metaInfo else Some(map[])) &&
      o.name == NameOf(f.stored.name) && Init(a, f).actions == []
  {
    InitFinished(a, f);
  }

  /** Creating and then reopening with no shape and no schema gives back the
      shape, schema and name the dataset was created with, and its meta
      information, a None one reading back as the empty dict. */
  lemma CreateThenReopen(a: Args, f: Facts, f2: Facts)
    requires Init(a, f).result.Ok? && Init(a, f).result.value.created
    requires a.name != Some("")
    requires f2.stored == Init(a, f).result.value.stored
    requires f2.dir.metaExists && CheckUsername(a.path, f2.dir).Ok?
    ensures var o, o2 := Init(a, f).result.value, Init(Args(a.path, "r", [None], None, Some(map[]), None), f2).result;
      o2.Ok? && !o2.value.created && o2.value.shape == o.shape && o2.value.schema == o.schema &&
      o2.value.metaInfo == (if o.metaInfo.Some? then o.metaInfo else Some(map[])) &&
      o2.value.name == o.name && o2.value.indexes == o.indexes
  {
    InitFinished(a, f);
    var o := Init(a, f).result.value;
    var a2 := Args(a.path, "r", [None], None, Some(map[]), None);
    assert GetMode("r", f2.dir.dirExists, f2.dir.metaExists, f2.probeWritable) == Ok("r");
    assert CheckAndPrepareDir(a.path, "r", f2.dir) == Ok(Prepared(false, []));
    assert ReopenCheck([None], None, f2.stored) == Ok(());
    var info := Some(OrEmpty(o.stored.metaInfo));
    assert Init(a2, f2) == Finish([], a.path, "r", false, o.shape, o.schema, o.stored, o.stored, info, NameOf(o.name));
    FinishOk([], a.path, "r", false, o.shape, o.schema, o.stored, o.stored, info, NameOf(o.name));
  }

  /** A reopen whose shape or top-level schema keys disagree with meta.json
      is rejected, whatever order the schema lists its keys in. */
  lemma ReopenRejects(a: Args, f: Facts)
    requires |a.shape| == 1 && f.dir.metaExists && CheckUsername(a.path, f.dir).Ok?
    requires a.mode in ValidModes && 'w' !in a.mode
    ensures a.shape != [None] && !ShapeMatches(a.shape, f.stored.shape) ==> Init(a, f).result == Err(ShapeMismatch)
    ensures (a.shape == [None] || ShapeMatches(a.shape, f.stored.shape)) && a.schema.Some? &&
            multiset(TopNames(a.schema.value)) != multiset(TopNames(f.stored.schema)) ==>
              Init(a, f).result == Err(SchemaMismatch)
  {
    if a.shape == [None] || ShapeMatches(a.shape, f.stored.shape) {
      ReopenSchemaOrderFree(a.shape, a.schema, f.stored);
    }
  }

  /** Overwriting wipes the existing dataset before the shape and schema
      arguments are looked at: mode "w" without a sample count or without a
      schema still removes the stored dataset, then raises. */
  lemma OverwriteWipesBeforeArgumentChecks(a: Args, f: Facts)
    requires |a.shape| == 1 && f.dir.metaExists && CheckUsername(a.path, f.dir).Ok?
    requires a.mode == "w" || a.mode == "w+"
    requires a.shape[0].None? || a.schema.None?
    ensures Init(a, f) ==
      Outcome([RemoveTree, MakeDirs], Err(if a.shape[0].None? then ShapeArgumentNotFound else SchemaArgumentNotFound))
  {
  }

  /** A schema naming an unknown compressor makes creation fail and removes
      the dataset root again. */
  lemma BadCompressorRollsBack(a: Args, f: Facts)
    requires Init(a, f).result == Err(WrongCompressor)
    ensures |Init(a, f).actions| >= 1 && Init(a, f).actions[|Init(a, f).actions| - 1] == RemoveTree
    ensures a.schema.Some? && !CompressorsKnown(a.schema.value.tensors)
  {
  }

  /** An opened dataset on hub storage carries the owner and dataset name
      read off its path; any other path carries none. */
  lemma HubNameOfOpened(a: Args, f: Facts)
    requires Init(a, f).result.Ok?
    ensures var o := Init(a, f).result.value;
      ParseHubPath(a.path) == Ok(o.hub) && (o.hub.Some? <==> IsHubPath(a.path))
  {
    InitFinished(a, f);
  }

  /** Mode "r" never changes the filesystem. */
  lemma ReadModeNoActions(a: Args, f: Facts)
    requires a.mode == "r"
    ensures Init(a, f).actions == []
  {
  }
}
