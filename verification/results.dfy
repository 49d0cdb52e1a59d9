/** The exceptions the modelled code can raise, and a failure-compatible
    Result/Outcome pair so that `:-` propagates them the way a Python
    exception unwinds the call. */
module Results {
  import opened PyValues

  /** Python exception classes, as far as the model distinguishes them. */
  datatype ExceptionClass =
    | ValueErr
    | TypeErr
    | StopIter
    | KeyErr
    | AttributeErr
    | OSErr
    | Unspecified

  /** One constructor per distinct way the modelled code fails. */
  datatype Error =
    | NotBoolOrNone(param: string)          // _val_bool_or_none; the message names the parameter
    | UnexpectedPairEnd(value: PyValue)     // Sample._val_pair_end; the message shows the value
    | HeaderWithoutTab(line: string)        // two-value unpack of rsplit('\t', 1) fails
    | OverSeqArity(fields: nat)             // OverSeq(*fields) with a field count other than 4
    | StopIteration                         // next() on an exhausted file iterator
    | KeyError(key: string)                 // missing key in a mapping
    | NotSubscriptable                      // value['key'] on a non-mapping
    | NotIterable                           // `for x in value` on a non-iterable
    | NoItemsMethod                         // value.items() on a non-mapping
    | KwargsNotMapping                      // f(**value) on a non-mapping
    | UnexpectedKeyword(key: string)        // f(**{key: ...}) with a key f does not take
    | UnknownPathLike                       // strify_path of neither a Path nor a str
    | NotPathConvertible                    // Path(value) of neither a Path nor a str
    | BadPatterns                           // a glob pattern, or the pattern list, of the wrong type
    | NoGlobMethod                          // path_like.glob on a value that is not a Path
    | UnacceptablePattern                   // Path.glob given a falsy pattern
    | UnreadableFolder(folder: string)      // job folder name or kind rejected
    | MissingFile(path: string)             // opening a file that is not there
  {
    function Class(): ExceptionClass {
      match this
      case NotBoolOrNone(_) => ValueErr
      case UnexpectedPairEnd(_) => ValueErr
      case HeaderWithoutTab(_) => ValueErr
      case OverSeqArity(_) => TypeErr
      case StopIteration => StopIter
      case KeyError(_) => KeyErr
      case NotSubscriptable => TypeErr
      case NotIterable => TypeErr
      case NoItemsMethod => AttributeErr
      case KwargsNotMapping => TypeErr
      case UnexpectedKeyword(_) => TypeErr
      case UnknownPathLike => ValueErr
      case NotPathConvertible => TypeErr
      case BadPatterns => TypeErr
      case NoGlobMethod => AttributeErr
      case UnacceptablePattern => ValueErr
      case UnreadableFolder(_) => Unspecified
      case MissingFile(_) => OSErr
    }
  }

  /** A computation that either returns a value or raises an Error. */
  datatype Result<+T> = Ok(value: T) | Err(error: Error) {
    predicate IsFailure() {
      Err?
    }

    function PropagateFailure<U>(): Result<U>
      requires Err?
    {
      Err(error)
    }

    function Extract(): T
      requires Ok?
    {
      value
    }
  }

  /** A check that either passes silently or raises an Error. */
  datatype Outcome = Pass | Fail(error: Error) {
    predicate IsFailure() {
      Fail?
    }

    function PropagateFailure<U>(): Result<U>
      requires Fail?
    {
      Err(error)
    }
  }

  /** Apply `f` to each element in order, stopping at the first failure,
      as a Python loop that appends to a list does when a call raises. */
  function MapUntilError<A, B>(xs: seq<A>, f: A -> Result<B>): (r: Result<seq<B>>)
    ensures r.Ok? <==> forall i :: 0 <= i < |xs| ==> f(xs[i]).Ok?
    ensures r.Ok? ==> |r.value| == |xs| && forall i :: 0 <= i < |xs| ==> f(xs[i]) == Ok(r.value[i])
    ensures r.Err? ==> exists k :: 0 <= k < |xs| && f(xs[k]) == Err(r.error)
                                   && forall i :: 0 <= i < k ==> f(xs[i]).Ok?
    decreases |xs|
  {
    if |xs| == 0 then Ok([])
    else
      assert forall i :: 1 <= i < |xs| ==> xs[i] == xs[1..][i - 1];
      match f(xs[0])
      case Err(e) => Err(e)
      case Ok(y) =>
        match MapUntilError(xs[1..], f)
        case Err(e) =>
          assert exists k :: 0 <= k < |xs[1..]| && f(xs[1..][k]) == Err(e)
                             && forall i :: 0 <= i < k ==> f(xs[1..][i]).Ok?;
          Err(e)
        case Ok(rest) => Ok([y] + rest)
  }
}

/** Python's `None`-or-value, for lookups and searches that may find nothing. */
module Options {
  datatype Option<+T> = None | Some(value: T)
}
