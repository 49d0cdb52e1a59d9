/** The dynamically typed Python values that reach the modelled checks:
    constructor keyword arguments and already-parsed YAML job metadata. */
module PyValues {
  import opened Paths
  import opened Options

  /** A Python value. Mapping keys are strings, as YAML job metadata
      writes them; floats and other types are not modelled. */
  datatype PyValue =
    | PyNone
    | PyBool(b: bool)
    | PyInt(i: int)
    | PyStr(s: string)
    | PyPath(p: Path)
    | PyList(items: seq<PyValue>)
    | PyDict(entries: seq<(string, PyValue)>)

  /** Python's truth value: `if value:`. */
  predicate Truthy(v: PyValue) {
    match v
    case PyNone => false
    case PyBool(b) => b
    case PyInt(i) => i != 0
    case PyStr(s) => |s| > 0
    case PyPath(_) => true
    case PyList(items) => |items| > 0
    case PyDict(entries) => |entries| > 0
  }

  /** Python's `==` where one side is a scalar: bool and int compare as
      numbers (`False == 0`, `True == 1`), other kinds compare equal only
      to the same kind with the same contents. */
  predicate PyEq(a: PyValue, b: PyValue) {
    match (a, b)
    case (PyBool(x), PyInt(y)) => (if x then 1 else 0) == y
    case (PyInt(x), PyBool(y)) => x == (if y then 1 else 0)
    case _ => a == b
  }

  /** Python's `x in [c0, c1, ...]`, which tests membership with `==`. */
  predicate PyIn(x: PyValue, candidates: seq<PyValue>) {
    exists i :: 0 <= i < |candidates| && PyEq(x, candidates[i])
  }

  /** `isinstance(v, bool)`. */
  predicate IsBool(v: PyValue) {
    v.PyBool?
  }

  /** `d[key]` on a mapping: the entry with that key (a Python dict has
      at most one). */
  function Lookup(entries: seq<(string, PyValue)>, key: string): (r: Option<PyValue>)
    ensures r.Some? <==> exists i :: 0 <= i < |entries| && entries[i].0 == key
    ensures r.Some? ==> exists i :: 0 <= i < |entries| && entries[i] == (key, r.value)
  {
    if |entries| == 0 then None
    else if entries[0].0 == key then Some(entries[0].1)
    else Lookup(entries[1..], key)
  }
}
