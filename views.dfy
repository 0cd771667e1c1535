/** The views the orchestrator hands out. Their own code (resolution, reads and
    writes through the chunked store) is not part of this model: a view is the
    record of what it was built from. */
module Views {
  import opened Slices

  datatype View =
    | TensorView(subpath: string, slices: seq<Slice>, lazy: bool)
    | ObjectView(subpath: string, slices: seq<Slice>, lazy: bool)
    | DatasetView(indexes: Selection, lazy: bool)

  /** What a caller receives for a tensor or object view: the view itself when
      the dataset is lazy, otherwise the result of `view.compute()`. */
  datatype Value = AsView(view: View) | Computed(of: View)

  function Deliver(v: View): (r: Value)
    ensures r.AsView? <==> v.lazy
    ensures (if r.AsView? then r.view else r.of) == v
  {
    if v.lazy then AsView(v) else Computed(v)
  }
}
