/** Failure-carrying wrappers shared by every module of the model. */
module Outcomes {

  /** A value that may be absent: a missing file, a missing dictionary key, no match. */
  datatype Option<+T> = None | Some(value: T) {
    function GetOr(default: T): T {
      match this
      case Some(v) => v
      case None => default
    }
  }

  /** The outcome of Python code that may raise: `Raise` names the exception class. */
  datatype Result<+T> = Ok(value: T) | Raise(error: string)

  /** The values of a run of steps that may raise, in order; the first raise wins. */
  function Collect<T>(rs: seq<Result<T>>): (r: Result<seq<T>>)
    ensures r.Ok? <==> forall i :: 0 <= i < |rs| ==> rs[i].Ok?
    ensures r.Ok? ==> |r.value| == |rs| && forall i :: 0 <= i < |rs| ==> r.value[i] == rs[i].value
    ensures r.Raise? ==> exists i :: 0 <= i < |rs| && rs[i] == Raise(r.error)
                                      && forall j :: 0 <= j < i ==> rs[j].Ok?
  {
    if rs == [] then Ok([])
    else
      var rest := Collect(rs[1..]);
      CollectCons(rs, rest);
      match rs[0]
      case Raise(e) => Raise(e)
      case Ok(v) =>
        match rest
        case Raise(e) => Raise(e)
        case Ok(vs) => Ok([v] + vs)
  }

  lemma CollectCons<T>(rs: seq<Result<T>>, rest: Result<seq<T>>)
    requires rs != []
    requires rest.Ok? <==> forall i :: 0 <= i < |rs| - 1 ==> rs[1..][i].Ok?
    requires rest.Ok? ==> |rest.value| == |rs| - 1 && forall i :: 0 <= i < |rs| - 1 ==> rest.value[i] == rs[1..][i].value
    requires rest.Raise? ==> exists i :: 0 <= i < |rs| - 1 && rs[1..][i] == Raise(rest.error)
                                         && forall j :: 0 <= j < i ==> rs[1..][j].Ok?
    ensures rs[0].Ok? && rest.Ok? ==> (forall i :: 0 <= i < |rs| ==> rs[i].Ok?)
                                      && forall i :: 0 <= i < |rs| ==> ([rs[0].value] + rest.value)[i] == rs[i].value
    ensures rs[0].Ok? && rest.Raise? ==> exists i :: 0 <= i < |rs| && !rs[i].Ok?
    ensures rs[0].Ok? && rest.Raise? ==> exists i :: 0 <= i < |rs| && rs[i] == Raise(rest.error)
                                                     && forall j :: 0 <= j < i ==> rs[j].Ok?
  {
    forall i | 1 <= i < |rs| ensures rs[i] == rs[1..][i - 1] { }
    if rs[0].Ok? && rest.Raise? {
      var i :| 0 <= i < |rs| - 1 && rs[1..][i] == Raise(rest.error) && forall j :: 0 <= j < i ==> rs[1..][j].Ok?;
      assert rs[i + 1] == Raise(rest.error);
      forall j | 0 <= j < i + 1 ensures rs[j].Ok? {
        if j > 0 {
          assert rs[j] == rs[1..][j - 1];
        }
      }
    }
  }

  /** Steps that all succeed collect into their values. */
  lemma CollectAllOk<T>(rs: seq<Result<T>>, vs: seq<T>)
    requires |rs| == |vs| && forall i :: 0 <= i < |rs| ==> rs[i] == Ok(vs[i])
    ensures Collect(rs) == Ok(vs)
  {
    var r := Collect(rs);
    assert r.Ok?;
    assert r.value == vs;
  }
}
