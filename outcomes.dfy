/** Option and Result datatypes, and the exceptions the dataset orchestrator raises. */
module Outcomes {

  datatype Option<+T> = None | Some(value: T)

  /** The exceptions of hub/api/dataset.py, one constructor per raise site kind. */
  datatype Error =
    | InvalidMode                 // Exception("Invalid mode ...")
    | WrongUsername               // WrongUsernameException
    | DatasetNotFound             // HubDatasetNotFoundException
    | NotHubDatasetToOverwrite    // NotHubDatasetToOverwriteException
    | NotHubDatasetToAppend       // NotHubDatasetToAppendException
    | WrongCompressor             // ValueError("Wrong compressor ...")
    | ShapeLength                 // ShapeLengthException
    | ShapeArgumentNotFound       // ShapeArgumentNotFoundException
    | SchemaArgumentNotFound      // SchemaArgumentNotFoundException
    | ShapeMismatch               // TypeError("Shape in metafile ... are !=")
    | SchemaMismatch              // TypeError("Schema in metafile ... do not match")
    | InvalidPath                 // ValueError("Invalid Path for dataset")
    | MultipleSlicesWithoutKey    // ValueError("Can't slice a dataset with multiple slices without key")
    | SliceOfDictionary           // ValueError("You can't slice a dictionary of Tensors")
    | AssignWithoutSubpath        // ValueError("Can't assign to dataset sliced without subpath")
    | KeyNotFound                 // KeyError("Key ... not found in the dataset")
    | DictionaryKeyNotFound       // KeyError("Key ... was not found in dataset")
    | SchemaKeyNotFound           // KeyError raised by the schema's top-level dict lookup
    | IndexOutOfRange             // IndexError raised by Python list or tuple indexing

  datatype Result<+T> = Ok(value: T) | Err(error: Error) {
    predicate IsFailure() { Err? }

    function PropagateFailure<U>(): Result<U>
      requires Err?
    {
      Err(error)
    }

    function Extract(): T
      requires Ok?
    {
      value
    }
  }
}
