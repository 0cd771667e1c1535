# Hub dataset orchestrator, modelled in Dafny

This project models the core of `hub/api/dataset.py`, the `Dataset` class of
Hub 1.x: the object that opens or creates a dataset at a URL, keeps its sample
count and index list, routes `ds[...]` reads and `ds[...] = v` writes to
tensor views, object views, dataset views or nested dictionaries of views, and
fans resizes and flushes out to its tensors.

The filesystem, the credentials file and the chunked tensor store are not
modelled as code. Each question the orchestrator asks of them is an input:
whether `meta.json` and the root exist, how many entries the root holds, the
stored username, whether the root can be listed, whether the write probe of
mode inference succeeds, and the meta record read back from `meta.json`. The
changes the orchestrator makes to the filesystem (remove the tree, make the
root) are returned as an ordered list. A tensor is an object with its first
dimension, the writes it received and a flush count. A view records what it
was built from.

Modules, one per file:

- `Outcomes` — `Option`, `Result` and one error constructor per exception the
  orchestrator raises.
- `Strings`, `Sorting`, `Slices` — the Python behaviour the code relies on:
  `str.split` on one character, `startswith`/`endswith`, ASCII lower-casing,
  `sorted()` on strings, list indexing and slicing with a step of 1.
- `Views` — tensor, object and dataset views, delivered as they are when the
  dataset is lazy and computed otherwise.
- `Modes` — `_get_mode` and the decision table of `_check_and_prepare_dir`.
- `Compressors` — `_get_compressor`.
- `HubPaths` — the owner and dataset name of an `s3://snark-hub…/` path.
- `NestedDict` — `_get_dictionary`, as a tree of association lists built key by key.
- `Metadata` — schema, meta record, and the checks made on reopening.
- `Routing` — the routing of `__getitem__` and `__setitem__` as pure functions.
- `Lifecycle` — the opening sequence of `__init__` as one function over the facts.
- `Datasets` — the `Dataset` and `Tensor` classes, whose methods update their
  fields in place and are proved against the functions above.

## Model

| member | source | states |
|---|---|---|
| `Modes.GetMode` | hub/api/dataset.py:737-753 | definition of `_get_mode`: an explicit mode is checked against the six valid ones; with none, "a" unless root and meta.json exist and the write probe fails, then "r" |
| `Modes.ExplicitMode` | hub/api/dataset.py:737-741 | an explicit mode is accepted iff it is one of r, r+, a, a+, w, w+, and is then returned unchanged; any other raises |
| `Modes.InferredMode` | hub/api/dataset.py:742-753 | with no mode, inference never fails and gives "r" only when root and meta.json exist and the write probe fails, else "a" |
| `Modes.ModeAlwaysValid` | hub/api/dataset.py:737-753 | every mode the function returns is one of the six valid modes |
| `Modes.UserOfPath` | hub/api/dataset.py:282 | definition: the username is `path.split("/")[-2]` |
| `Modes.S3PathHasUser` | hub/api/dataset.py:279-282 | for an s3 path the username component `path.split("/")[-2]` always exists |
| `Modes.CheckUsername` | hub/api/dataset.py:279-287 | definition: an s3 path whose username differs from the stored one is refused unless its root can be listed |
| `Modes.CheckAndPrepareDir` | hub/api/dataset.py:272-312 | definition of `_check_and_prepare_dir`: the username check, then the branches on meta.json, mode, root and entry count, with the filesystem changes they make |
| `Modes.DecisionTable` | hub/api/dataset.py:294-312 | once the username check passes: meta and "w" wipe and create; meta without "w" opens; no meta and "r" is not found; non-empty root is the overwrite or append error; otherwise create |
| `Modes.OpenOnlyExisting` | hub/api/dataset.py:294-300 | an existing dataset is opened iff the username check passes, meta.json exists and "w" is not in the mode; opening makes no filesystem change |
| `Modes.NoDataLossOutsideOverwrite` | hub/api/dataset.py:294-312 | the tree is removed only when meta.json exists and the mode has "w"; creation without meta.json only over an absent or empty root |
| `Modes.ReadModesNeverCreate` | hub/api/dataset.py:301-303 | both "r" and "r+" never create: a missing dataset is not-found, an existing one opens unchanged |
| `Modes.DefaultModeCreates` | hub/api/dataset.py:745-746 | with no mode and no meta.json the mode is "a", which creates over an absent or empty root |
| `Compressors.GetCompressor` | hub/api/dataset.py:322-334 | definition of `_get_compressor`: the four names compared after lower-casing, any other raising |
| `Compressors.CompressorCaseInsensitive` | hub/api/dataset.py:322-331 | the lookup ignores case |
| `Compressors.CompressorAccepts` | hub/api/dataset.py:322-334 | a name is accepted iff its lower-case form is lz4, zstd, default or png; any other raises the wrong-compressor error |
| `Compressors.CompressorRoundTrip` | hub/api/dataset.py:322-331 | each accepted name gives the codec that carries that name, "default" gives the pass-through marker, PNG is single-channel |
| `Compressors.NameRoundTrip` | hub/api/dataset.py:322-331 | each codec comes back from its own name in any case, so the four names give four distinct codecs |
| `HubPaths.ParseHubPath` | hub/api/dataset.py:210-218 | definition: on either hub bucket, fewer than four components after "s3://" raise, otherwise the last two are owner and dataset; other paths carry no name |
| `HubPaths.ParsedNamesAreLastComponents` | hub/api/dataset.py:210-218 | the parsed owner and dataset hold no "/" and the path ends with "/owner/dataset" |
| `HubPaths.ParseHubPathRoundTrip` | hub/api/dataset.py:210-218 | a hub path built from bucket, one more component, owner and dataset parses back to that owner and dataset |
| `HubPaths.InvalidIffShort` | hub/api/dataset.py:212-216 | a hub path is rejected iff it has fewer than four components after "s3://" |
| `HubPaths.NonHubPathsCarryNoName` | hub/api/dataset.py:210-212 | every other path carries no hub name and is never rejected |
| `NestedDict.Normalise` | hub/api/dataset.py:606 | the prefix ends in "/", and only gains one when it lacked it |
| `NestedDict.InsertInto` | hub/api/dataset.py:609-619 | definition of the inner walk: descend through the path, creating each missing dict, and store the view under the last piece |
| `NestedDict.InsertLookup` | hub/api/dataset.py:609-619 | walking and creating dicts along a path adds exactly the leaf at that path and changes no other lookup, when no leaf lies above and nothing below |
| `NestedDict.InsertWellFormed` | hub/api/dataset.py:611-619 | the walk keeps the keys of every dict distinct |
| `NestedDict.Fill` | hub/api/dataset.py:607-620 | definition of the outer loop over the keys in order, inserting each key under the prefix |
| `NestedDict.FillContents` | hub/api/dataset.py:606-620 | after the loop every key under the prefix sits at the path its suffix splits into, every leaf comes from such a key, dicts have distinct keys, and the dict is empty iff no key matched |
| `NestedDict.GetDictionary` | hub/api/dataset.py:603-623 | definition of the corrected `_get_dictionary`: the filled dict over the leaf slice, KeyError when it is empty |
| `NestedDict.GetDictionaryAsWritten` | hub/api/dataset.py:603-623 | definition of `_get_dictionary` as written, with the leaf slice `slice_ or slice(0, n)` |
| `NestedDict.GetDictionaryContents` | hub/api/dataset.py:603-623 | the result places each matching key's view at its split suffix, holds nothing else, shares intermediate dicts, and is KeyError iff no key starts with the normalised prefix |
| `NestedDict.LeafSlice` | hub/api/dataset.py:616 | definition of the intended leaf slice: the slice given, else [0, n) |
| `NestedDict.DictionaryLeafSlices` | hub/api/dataset.py:603-623 | every key under the prefix is read over exactly the one slice given, or over [0, n) when none; as written, the index 0 is read over [0, n) as well |
| `NestedDict.LeafSliceDiscrepancy` | hub/api/dataset.py:616 | the slice as written differs from the intended one exactly for the integer index 0, which it turns into the whole range |
| `NestedDict.SampleZeroOfDictionary` | hub/api/dataset.py:616 | `ds["/d", 0]` with the key "/d/a" gives a view of samples 0..5 as written and of sample 0 as intended |
| `Metadata.StoreMeta` | hub/api/dataset.py:260-270 | definition of `_store_meta`'s record: version 1, the dataset's shape, schema and name, the meta information or the empty dict |
| `Metadata.NameOf` | hub/api/dataset.py:165 | definition: a stored empty name reads as no name |
| `Metadata.StoreMetaReadsBack` | hub/api/dataset.py:163-182 | a stored record reads back as the state it was written from: it passes the reopen checks with its own shape and schema or with none, any name but "" comes back unchanged, and None meta information comes back as the empty dict |
| `Metadata.ReopenCheck` | hub/api/dataset.py:171-182 | definition of the reopen checks: a shape other than (None,) must equal the stored one, then a given schema must have the stored sorted top-level keys |
| `Metadata.ReopenShape` | hub/api/dataset.py:171-175 | a caller shape other than (None,) that differs from the stored shape is rejected, and only such a shape |
| `Metadata.ReopenSchemaOrderFree` | hub/api/dataset.py:175-182 | a caller schema passes iff its top-level keys are the stored ones, in any order |
| `Metadata.ReopenWithOwnMeta` | hub/api/dataset.py:171-182 | reopening with the stored shape and the stored top-level keys in any order passes |
| `Routing.TopKind` | hub/api/dataset.py:427 | definition: the kind of the top-level schema node named by the second `/`-component of the subpath |
| `Routing.GetItem` | hub/api/dataset.py:382-446 | definition of the corrected `__getitem__` routing: dataset view, tensor view, object view or nested dictionary, with the leaf slice of `NestedDict.GetDictionary` |
| `Routing.GetItemAsWritten` | hub/api/dataset.py:382-446 | definition of `__getitem__` as written, with the leaf slice of `NestedDict.GetDictionaryAsWritten` |
| `Routing.GetItemAsWrittenAgrees` | hub/api/dataset.py:446 | the read as written equals the corrected one on every input except a subpath under no key read with the single index 0, where it is the read without slices |
| `Routing.LookupTop` | hub/api/dataset.py:427 | the top-level schema lookup returns a node listed under that name, or KeyError when the name is absent |
| `Routing.DatasetRoute` | hub/api/dataset.py:396-406 | without a subpath, several slices raise, one slice gives a dataset view over `indexes[slice]`, and nothing else succeeds |
| `Routing.DatasetRouteOnRange` | hub/api/dataset.py:401-406 | on the index list [0, n), `ds[a:b]` with a <= b <= n views the indexes a..b |
| `Routing.TensorRouteWhole` | hub/api/dataset.py:407-415 | a key read without slices gives its tensor view over [0, n) |
| `Routing.TensorRouteSliced` | hub/api/dataset.py:427-443 | a key read with slices gives a tensor view over them unless its top node is a Sequence and there are several slices, which gives an object view |
| `Routing.SchemaLookupFirst` | hub/api/dataset.py:427 | with slices, a subpath without a second component or with an unknown top-level name raises before any key test |
| `Routing.ObjectRoute` | hub/api/dataset.py:416-424 | a non-key subpath that starts with a key gives an object view over the slices, or over [0, n) when none |
| `Routing.DictionaryRoute` | hub/api/dataset.py:425-446 | a subpath under no key gives the nested dictionary over no slice or the one slice, and several slices raise; as written the same holds with the as-written dictionary, and the single index 0 reads as no slice |
| `Routing.PrefixWithoutBoundary` | hub/api/dataset.py:416-417 | the key test is a plain string prefix: key "/image" makes "/images" an object view |
| `Routing.ViewsCarrySubpath` | hub/api/dataset.py:407-443 | a key-level view carries the requested subpath and slices (or [0, n)) and is uncomputed iff the dataset is lazy |
| `Routing.SetTarget` | hub/api/dataset.py:448-473 | definition of `__setitem__`'s checks and written slices: no subpath or a non-key raises, no slices write `[:]` |
| `Routing.SetTargetCases` | hub/api/dataset.py:465-473 | a write needs a subpath that is a key; it writes the slices given, or `[:]` when none |
| `Lifecycle.Init` | hub/api/dataset.py:132-208 | definition of the opening sequence: shape length, mode, directory preparation, then the reopen checks or the creation with its rollback |
| `Lifecycle.Finish` | hub/api/dataset.py:208-218 | definition of the common tail: the index list [0, shape[0]) and the hub name |
| `Lifecycle.ShapeLengthFirst` | hub/api/dataset.py:132-134 | a normalised shape whose length is not 1 is rejected before anything else happens |
| `Lifecycle.OpenedInvariant` | hub/api/dataset.py:132-208 | an opened dataset has a valid mode, the index list [0, shape[0]), a meta record of its shape and schema, was created iff there was no meta.json or the mode overwrites, and meta.json holds that record, with the meta information as given after a creation's flush |
| `Lifecycle.CreatedFromArguments` | hub/api/dataset.py:182-197 | a created dataset has the caller's shape (n,), schema, meta information and name, a version-1 meta record of them whose meta information is the caller's or the empty dict, and only known compressors |
| `Lifecycle.ReopenedFromMeta` | hub/api/dataset.py:163-170 | a reopened dataset takes shape, schema and name from meta.json, its meta information too with null read as the empty dict, and changes nothing on disk |
| `Lifecycle.CreateThenReopen` | hub/api/dataset.py:163-197 | reopening a created dataset in mode "r" without shape or schema gives back its shape, schema, name, index list and meta information, None coming back as the empty dict |
| `Lifecycle.ReopenRejects` | hub/api/dataset.py:171-182 | a reopen with a different shape, or a schema whose top-level keys differ as a multiset, raises the matching TypeError |
| `Lifecycle.OverwriteWipesBeforeArgumentChecks` | hub/api/dataset.py:182-186 | mode "w" over a dataset without a sample count or schema removes the dataset and then raises |
| `Lifecycle.BadCompressorRollsBack` | hub/api/dataset.py:187-206 | an unknown compressor during creation raises and the last filesystem change removes the root |
| `Lifecycle.HubNameOfOpened` | hub/api/dataset.py:210-218 | an opened dataset carries the owner and dataset name of its path iff the path is on hub storage |
| `Lifecycle.ReadModeNoActions` | hub/api/dataset.py:294-312 | opening in mode "r" never changes the filesystem |
| `Datasets.Kept` | hub/api/dataset.py:484 | definition of the list comprehension `[i for i in indexes if keep(i)]` |
| `Datasets.KeptMembers` | hub/api/dataset.py:484 | an index survives the filter iff it is listed and satisfies the predicate |
| `Datasets.KeptIncreasing` | hub/api/dataset.py:484 | the filter keeps the order of the index list |
| `Datasets.FilterOnRange` | hub/api/dataset.py:484 | on [0, n) the filter gives exactly the satisfying indexes below n, in increasing order |
| `Datasets.Dataset.constructor` | hub/api/dataset.py:336-380 | one fresh tensor per schema key, each with the sample count as first dimension, flushed once when the dataset was created; meta.json as the opening left it; the object invariant holds |
| `Datasets.Dataset.Len` | hub/api/dataset.py:630-632 | the length is the number of indexes |
| `Datasets.Dataset.ResizeShape` | hub/api/dataset.py:526-536 | the same size changes nothing; otherwise shape (n,), indexes [0, n), a rewritten meta record, every tensor resized to n, nothing else changed |
| `Datasets.Dataset.AppendShape` | hub/api/dataset.py:538-541 | exactly `resize_shape(old + k)`: k = 0 changes nothing; otherwise shape (old + k,), indexes [0, old + k), a rewritten meta record, every tensor resized, nothing else changed |
| `Datasets.Dataset.UnderKey` | hub/api/dataset.py:416-417 | the key scan answers whether some key is a prefix of the subpath |
| `Datasets.Dataset.GetDictionary` | hub/api/dataset.py:603-623 | the key loop builds the dictionary that `NestedDict.GetDictionary` specifies, which is the one as written for every slice but the index 0 |
| `Datasets.Dataset.GetItem` | hub/api/dataset.py:382-446 | the read returns what `Routing.GetItem` specifies for the dataset's keys, schema, count, indexes and laziness, and what `Routing.GetItemAsWritten` does for every slice list but the single index 0 |
| `Datasets.Dataset.SetItem` | hub/api/dataset.py:448-473 | only the tensor under the subpath receives the write, over the target slices; an error writes nothing |
| `Datasets.Dataset.Flush` | hub/api/dataset.py:640-655 | in modes containing "r" nothing changes; otherwise every tensor is flushed once and the meta information, None included, is written into meta.json; nothing else changes |
| `Datasets.Dataset.Filter` | hub/api/dataset.py:475-485 | the result is a dataset view over the kept indexes, with the dataset's laziness |

## Left out

- Filesystem and credentials access (`ls`, `rm`, `makedirs`, `pipe`, `listdir`, `exists`, `~/.activeloop/store`): answers are inputs, changes are an action list.
- `get_fs_and_path`, `norm_shape`, `norm_cache`, `featurify`, `flatten`, `slice_split`: not part of this model; their outputs are the model's inputs (a shape with None entries, a schema with its flattened tensors, a subpath and a slice list).
- `HubControlClient` calls (dataset entries on the hosted service): network registration, not modelled.
- JSON serialisation of meta.json and schema serialisation: the meta record is an abstract value.
- `DynamicTensor`, `MetaStorage`, `get_storage_map` and the views: a tensor records its first dimension, writes and flushes; a view records its subpath, slices or indexes and laziness. The per-tensor `--dynamic--` directories made during creation are not in the action list.
- Exceptions raised inside unseen collaborators during creation: the rollback is modelled only for the unknown compressor.
- `_update_dataset_state`, `close`, `commit`, `rename`, `delete`, `copy`, `__iter__`, `numpy`, `compute`, the framework conversions and `from_directory`: outside the core.
- Caches, locks, tokens, the tokenizer and `public`: configuration passed to unseen code.
- Slices with a step, and index expressions other than integers and `start:stop` slices.
- Datasets.Dataset.ResizeShape: sizes are natural numbers; a negative size, which the source would pass to `range` and to the tensors, is not modelled.
- Datasets.Dataset.AppendShape: k may be negative, but only so far as the new size stays a natural number, for the same reason.
- Datasets.Dataset.Filter: the caller's predicate is taken on the sample index, since the sample `self[index]` it receives is determined by that index.
- Compressors.CompressorCaseInsensitive: lower-casing is ASCII only; Python's `str.lower` also lowers other letters, none of which lower into the four codec names.
- A mode of None is modelled as "", which `_get_mode` treats the same way. A meta information of None is kept as None: the record `_store_meta` writes holds the empty dict, while a later `_save_meta` writes null, and a reopen reads null back as the empty dict.
- Routing.GetItem: models the corrected leaf slice of the nested-dictionary read; as written, a subpath under no key read with the single index 0 gives views over [0, n). `Routing.GetItemAsWritten` is that behaviour, and `Routing.GetItemAsWrittenAgrees` states where the two differ.
- Routing.DictionaryRoute: its first clauses describe the corrected read; the as-written clauses of the same lemma give the source's read, where the index 0 reads as no slice.
- Datasets.Dataset.GetItem: returns the corrected read; it equals the read as written for every slice list but the single index 0.
- Datasets.Dataset.GetDictionary: builds the corrected dictionary; it equals the one as written for every slice but the index 0, which as written gives views over [0, n).

## Findings

| source | as written | input that shows it | evidently intended | confidence | as-written member | corrected member |
|---|---|---|---|---|---|---|
| hub/api/dataset.py:616 | `slice_ = slice_ or slice(0, self._shape[0])` tests the truthiness of the index, so the integer index 0 is treated as "no slice" | `ds["/d", 0]` on a five-sample dataset with the key "/d/a": the leaf is the view over samples 0..5 | the leaf views sample 0, as `ds["/d", 1]` views sample 1; the default applies only when no slice is given | not executed; assumes `slice_split` passes the integer 0 through unchanged | `NestedDict.SampleZeroOfDictionary` | `NestedDict.DictionaryLeafSlices` |
