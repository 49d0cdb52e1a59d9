/** ngparser/util.py: the parser package's own copy of the bool-or-None
    validator. `open`, `abspath` and `expanduser` touch the file system
    and are not part of this model. */
module NgparserUtil {
  import opened PyValues
  import opened Results
  import NgcloudUtil

  /** `_val_bool_or_none(arg, name)`; the two packages carry the same code. */
  function ValBoolOrNone(arg: PyValue, name: string): (r: Outcome)
    ensures r.Pass? <==> arg in {PyBool(true), PyBool(false), PyNone}
    ensures r.Fail? ==> r.error == NotBoolOrNone(name) && r.error.Class() == ValueErr
  {
    NgcloudUtil.ValBoolOrNoneAccepts(arg, name);
    NgcloudUtil.ValBoolOrNone(arg, name)
  }

  /** Whether a value passes depends on the value alone; the name only
      changes the message. */
  lemma OutcomeIgnoresName(arg: PyValue, name1: string, name2: string)
    ensures ValBoolOrNone(arg, name1).Pass? == ValBoolOrNone(arg, name2).Pass?
    ensures ValBoolOrNone(arg, name1).Fail? ==> ValBoolOrNone(arg, name1).error.param == name1
  {
  }
}
