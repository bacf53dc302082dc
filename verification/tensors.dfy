/** The tensor-dictionary container, reduced to what the model contract
    observes: a flat mapping from path to a tensor whose shape is visible and
    whose contents are opaque. */
module Tensors {
  import opened Results

  /** A tensor: its shape, and its elements in row-major order. The contract
      layer never inspects `data`; it is carried only so that one can say a
      tensor reaches user code unchanged. */
  datatype Tensor = Tensor(shape: seq<nat>, data: seq<int>)

  /** A TensorDict maps each path to a tensor. Paths are unique and lookup
      has no ordering. */
  type TensorDict = map<string, Tensor>

  /** `d[path]`, failing with `MissingKey` when the path is absent. */
  function Get(d: TensorDict, path: string): (r: Result<Tensor>)
    ensures r.Success? <==> path in d
    ensures r.Success? ==> r.value == d[path]
    ensures r.Failure? ==> r.error == MissingKey(path)
  {
    if path in d then Success(d[path]) else Failure(MissingKey(path))
  }

  /** The sub-dictionary of `d` on the given key set: a new dictionary, the
      original is not changed. */
  function Filter(d: TensorDict, keys: set<string>): (r: TensorDict)
    ensures r.Keys == d.Keys * keys
    ensures forall k :: k in r ==> r[k] == d[k]
  {
    map k | k in d && k in keys :: d[k]
  }
}
