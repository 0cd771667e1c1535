/** Mode handling of hub/api/dataset.py: `_get_mode` validates or infers the
    open mode, `_check_and_prepare_dir` decides between creating and opening
    a dataset. The filesystem is reduced to the facts these two consult. */
module Modes {
  import opened Outcomes
  import opened Strings

  /** The modes `_get_mode` accepts when one is given. */
  const ValidModes: seq<string> := ["r", "r+", "a", "a+", "w", "w+"]

  /** A mode of None or "" (both false in Python) asks for inference.
      `probeWritable` says whether writing and removing the file `mode_test`
      under the dataset root succeeds. */
  function GetMode(mode: string, dirExists: bool, metaExists: bool, probeWritable: bool): Result<string> {
    if mode != "" then
      if mode in ValidModes then Ok(mode) else Err(InvalidMode)
    else if !dirExists || !metaExists then Ok("a")
    else if probeWritable then Ok("a")
    else Ok("r")
  }

  /** An explicit mode is accepted exactly when it is one of the six valid
      modes, and is then returned unchanged. */
  lemma ExplicitMode(mode: string, dirExists: bool, metaExists: bool, probeWritable: bool)
    requires mode != ""
    ensures GetMode(mode, dirExists, metaExists, probeWritable).Ok? <==> mode in ValidModes
    ensures GetMode(mode, dirExists, metaExists, probeWritable).Ok? ==>
              GetMode(mode, dirExists, metaExists, probeWritable).value == mode
    ensures mode !in ValidModes ==> GetMode(mode, dirExists, metaExists, probeWritable) == Err(InvalidMode)
  {
  }

  /** Without an explicit mode inference never fails; it picks "a" unless a
      dataset is present and its root cannot be written, which gives "r". */
  lemma InferredMode(dirExists: bool, metaExists: bool, probeWritable: bool)
    ensures GetMode("", dirExists, metaExists, probeWritable).Ok?
    ensures GetMode("", dirExists, metaExists, probeWritable).value ==
              if dirExists && metaExists && !probeWritable then "r" else "a"
    ensures !dirExists || !metaExists ==> GetMode("", dirExists, metaExists, probeWritable) == Ok("a")
  {
  }

  /** Whatever the route, an accepted mode is a valid one. */
  lemma ModeAlwaysValid(mode: string, dirExists: bool, metaExists: bool, probeWritable: bool)
    ensures GetMode(mode, dirExists, metaExists, probeWritable).Ok? ==>
              GetMode(mode, dirExists, metaExists, probeWritable).value in ValidModes
  {
  }

  /** Filesystem changes `_check_and_prepare_dir` makes at the dataset root. */
  datatype FsAction = RemoveTree | MakeDirs

  /** What the filesystem answers: the username stored in the local credentials
      file, whether `listdir(path)` succeeds, whether `meta.json` and the root
      exist, and how many entries the root holds. */
  datatype DirFacts = DirFacts(storedUsername: string, canList: bool, metaExists: bool, dirExists: bool, fileCount: nat)

  /** The returned flag (True = the dataset has to be created) and the changes made. */
  datatype Prepared = Prepared(needCreate: bool, actions: seq<FsAction>)

  /** path.split("/")[-2] */
  function UserOfPath(path: string): Result<string> {
    var parts := Split(path, '/');
    if |parts| >= 2 then Ok(parts[|parts| - 2]) else Err(IndexOutOfRange)
  }

  /** An s3 path always has a second-to-last component, so the username
      lookup never raises IndexError. */
  lemma {:induction false} S3PathHasUser(path: string)
    requires StartsWith(path, "s3://")
    ensures UserOfPath(path).Ok?
  {
    var rest := path[5..];
    assert path == "s3:" + ['/'] + ("" + ['/'] + rest);
    SplitAround("s3:", "" + ['/'] + rest, '/');
    SplitAround("", rest, '/');
  }

  /** The checks on an s3 path: the username in the path has to be the stored
      one, unless the root can be listed anyway. */
  function CheckUsername(path: string, f: DirFacts): Result<()> {
    if !StartsWith(path, "s3://") then Ok(())
    else
      match UserOfPath(path)
      case Err(e) => Err(e)
      case Ok(user) =>
        if f.storedUsername != user && !f.canList then Err(WrongUsername) else Ok(())
  }

  function CheckAndPrepareDir(path: string, mode: string, f: DirFacts): Result<Prepared> {
    match CheckUsername(path, f)
    case Err(e) => Err(e)
    case Ok(_) =>
      if f.metaExists then
        if 'w' in mode then Ok(Prepared(true, [RemoveTree, MakeDirs])) else Ok(Prepared(false, []))
      else if 'r' in mode then Err(DatasetNotFound)
      else if !f.dirExists then Ok(Prepared(true, [MakeDirs]))
      else if f.fileCount > 0 then
        Err(if 'w' in mode then NotHubDatasetToOverwrite else NotHubDatasetToAppend)
      else Ok(Prepared(true, []))
  }

  /** The decision table, case by case, once the username check has passed. */
  lemma DecisionTable(path: string, mode: string, f: DirFacts)
    requires CheckUsername(path, f).Ok?
    ensures f.metaExists && 'w' in mode ==>
              CheckAndPrepareDir(path, mode, f) == Ok(Prepared(true, [RemoveTree, MakeDirs]))
    ensures f.metaExists && 'w' !in mode ==> CheckAndPrepareDir(path, mode, f) == Ok(Prepared(false, []))
    ensures !f.metaExists && 'r' in mode ==> CheckAndPrepareDir(path, mode, f) == Err(DatasetNotFound)
    ensures !f.metaExists && 'r' !in mode && f.dirExists && f.fileCount > 0 ==>
              CheckAndPrepareDir(path, mode, f) ==
                Err(if 'w' in mode then NotHubDatasetToOverwrite else NotHubDatasetToAppend)
    ensures !f.metaExists && 'r' !in mode && (!f.dirExists || f.fileCount == 0) ==>
              CheckAndPrepareDir(path, mode, f).Ok? && CheckAndPrepareDir(path, mode, f).value.needCreate
  {
  }

  /** An existing dataset is opened exactly when meta.json exists and the mode
      does not overwrite; opening never touches the filesystem. */
  lemma OpenOnlyExisting(path: string, mode: string, f: DirFacts)
    ensures (CheckAndPrepareDir(path, mode, f).Ok? && !CheckAndPrepareDir(path, mode, f).value.needCreate) <==>
              (CheckUsername(path, f).Ok? && f.metaExists && 'w' !in mode)
    ensures CheckAndPrepareDir(path, mode, f).Ok? && !CheckAndPrepareDir(path, mode, f).value.needCreate ==>
              CheckAndPrepareDir(path, mode, f).value.actions == []
  {
  }

  /** The root is wiped only when it holds a dataset and the mode overwrites,
      and a dataset is never created over a directory holding other files. */
  lemma NoDataLossOutsideOverwrite(path: string, mode: string, f: DirFacts)
    ensures CheckAndPrepareDir(path, mode, f).Ok? && RemoveTree in CheckAndPrepareDir(path, mode, f).value.actions ==>
              f.metaExists && 'w' in mode
    ensures CheckAndPrepareDir(path, mode, f).Ok? && CheckAndPrepareDir(path, mode, f).value.needCreate && !f.metaExists ==>
              !f.dirExists || f.fileCount == 0
  {
  }

  /** Both read modes, "r" and "r+", never create: a missing dataset is an
      error for them, an existing one is opened without changes. */
  lemma ReadModesNeverCreate(path: string, mode: string, f: DirFacts)
    requires mode == "r" || mode == "r+"
    ensures CheckAndPrepareDir(path, mode, f).Ok? ==> CheckAndPrepareDir(path, mode, f) == Ok(Prepared(false, []))
    ensures CheckUsername(path, f).Ok? && !f.metaExists ==> CheckAndPrepareDir(path, mode, f) == Err(DatasetNotFound)
  {
  }

  /** With no mode given and no dataset at the root, the inferred mode "a"
      leads to creation as long as the root is absent or empty. */
  lemma DefaultModeCreates(path: string, f: DirFacts, probeWritable: bool)
    requires !f.metaExists
    requires CheckUsername(path, f).Ok?
    requires !f.dirExists || f.fileCount == 0
    ensures GetMode("", f.dirExists, f.metaExists, probeWritable) == Ok("a")
    ensures CheckAndPrepareDir(path, "a", f).Ok? && CheckAndPrepareDir(path, "a", f).value.needCreate
  {
  }
}
