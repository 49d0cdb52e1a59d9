/** The Python operations the job-metadata readers apply to parsed YAML
    values: iteration, `value['key']`, `next(iter(value.items()))` and
    binding `**value` to keyword parameters. */
module PyOps {
  import opened Options
  import opened PyValues
  import opened Results

  /** `for x in v`: a list yields its items, a str its characters, a dict
      its keys; anything else is not iterable. */
  function Iterate(v: PyValue): (r: Result<seq<PyValue>>)
    ensures r.Err? <==> !(v.PyList? || v.PyStr? || v.PyDict?)
    ensures r.Err? ==> r.error == NotIterable
    ensures v.PyList? ==> r == Ok(v.items)
    ensures v.PyStr? ==> |r.value| == |v.s| && forall i :: 0 <= i < |v.s| ==> r.value[i] == PyStr([v.s[i]])
    ensures v.PyDict? ==> |r.value| == |v.entries| && forall i :: 0 <= i < |v.entries| ==> r.value[i] == PyStr(v.entries[i].0)
  {
    match v
    case PyList(items) => Ok(items)
    case PyStr(s) => Ok(seq(|s|, i requires 0 <= i < |s| => PyStr([s[i]])))
    case PyDict(entries) => Ok(seq(|entries|, i requires 0 <= i < |entries| => PyStr(entries[i].0)))
    case _ => Err(NotIterable)
  }

  /** `v[key]` with a str key. */
  function Subscript(v: PyValue, key: string): (r: Result<PyValue>)
    ensures !v.PyDict? ==> r == Err(NotSubscriptable)
    ensures v.PyDict? ==> (r.Ok? <==> exists i :: 0 <= i < |v.entries| && v.entries[i].0 == key)
    ensures v.PyDict? && r.Ok? ==> exists i :: 0 <= i < |v.entries| && v.entries[i] == (key, r.value)
    ensures v.PyDict? && r.Err? ==> r.error == KeyError(key)
  {
    match v
    case PyDict(entries) =>
      (match Lookup(entries, key)
       case Some(x) => Ok(x)
       case None => Err(KeyError(key)))
    case _ => Err(NotSubscriptable)
  }

  /** `for x in v[key]`: the items of the value stored under `key`. */
  function IterateKey(v: PyValue, key: string): (r: Result<seq<PyValue>>)
    ensures Subscript(v, key).Err? ==> r == Err(Subscript(v, key).error)
    ensures Subscript(v, key).Ok? ==> r == Iterate(Subscript(v, key).value)
  {
    match Subscript(v, key)
    case Err(e) => Err(e)
    case Ok(x) => Iterate(x)
  }

  /** `next(iter(v.items()))`: the first key and its value. */
  function FirstItem(v: PyValue): (r: Result<(string, PyValue)>)
    ensures r.Ok? <==> v.PyDict? && |v.entries| > 0
    ensures r.Ok? ==> r.value == v.entries[0]
    ensures v.PyDict? && |v.entries| == 0 ==> r == Err(StopIteration)
    ensures !v.PyDict? ==> r == Err(NoItemsMethod)
  {
    match v
    case PyDict(entries) => if |entries| == 0 then Err(StopIteration) else Ok(entries[0])
    case _ => Err(NoItemsMethod)
  }

  /** `f(**v)` for a function whose keyword parameters are `params`, each
      defaulting to None: the value bound to each parameter, in order. */
  function BindKeywords(v: PyValue, params: seq<string>): (r: Result<seq<PyValue>>)
    ensures !v.PyDict? ==> r == Err(KwargsNotMapping)
    ensures v.PyDict? ==> (r.Ok? <==> forall i :: 0 <= i < |v.entries| ==> v.entries[i].0 in params)
    ensures r.Ok? ==> |r.value| == |params|
    ensures r.Ok? ==> forall k :: 0 <= k < |params| ==>
      r.value[k] == (match Lookup(v.entries, params[k]) case Some(x) => x case None => PyNone)
    ensures r.Err? && v.PyDict? ==> r.error.UnexpectedKeyword? && r.error.key !in params
  {
    match v
    case PyDict(entries) =>
      (match UnknownKeyword(entries, params)
       case Some(k) => Err(UnexpectedKeyword(k))
       case None =>
         Ok(seq(|params|, k requires 0 <= k < |params| =>
           match Lookup(entries, params[k]) case Some(x) => x case None => PyNone)))
    case _ => Err(KwargsNotMapping)
  }

  /** The first key of `entries` that is not one of `params`. */
  function UnknownKeyword(entries: seq<(string, PyValue)>, params: seq<string>): (r: Option<string>)
    ensures r.None? <==> forall i :: 0 <= i < |entries| ==> entries[i].0 in params
    ensures r.Some? ==> r.value !in params
  {
    if |entries| == 0 then None
    else if entries[0].0 !in params then Some(entries[0].0)
    else UnknownKeyword(entries[1..], params)
  }
}
