/** Optional values and success-or-error results, used wherever the Python
    code either returns nothing useful or raises. */
module Wrappers {

  datatype Option<+T> = None | Some(value: T)

  datatype Result<+T, +E> = Ok(value: T) | Err(error: E)

  /** The values of `rs` when all succeed; otherwise the first error, as a
      Python list comprehension stops at the first exception. */
  function Collect<T, E>(rs: seq<Result<T, E>>): (r: Result<seq<T>, E>)
    ensures r.Ok? <==> forall i :: 0 <= i < |rs| ==> rs[i].Ok?
    ensures r.Ok? ==> |r.value| == |rs| && forall i :: 0 <= i < |rs| ==> r.value[i] == rs[i].value
    ensures r.Err? ==> exists i :: 0 <= i < |rs| && rs[i] == Err(r.error) && forall j :: 0 <= j < i ==> rs[j].Ok?
  {
    if rs == [] then Ok([])
    else
      match rs[0]
      case Err(e) => Err(e)
      case Ok(v) =>
        var rest := Collect(rs[1..]);
        assert forall j :: 1 <= j < |rs| ==> rs[j] == rs[1..][j - 1];
        if rest.Err? then
          assert exists i :: 0 <= i < |rs| && rs[i] == Err(rest.error) && forall j :: 0 <= j < i ==> rs[j].Ok? by {
            var i :| 0 <= i < |rs| - 1 && rs[1..][i] == Err(rest.error) && forall j :: 0 <= j < i ==> rs[1..][j].Ok?;
            assert rs[i + 1] == Err(rest.error);
          }
          Err(rest.error)
        else Ok([v] + rest.value)
  }

  /** Two lists that fail at the same places with the same errors collect to
      the same failure. */
  lemma CollectFailuresAgree<T, E>(rs: seq<Result<T, E>>, rs': seq<Result<T, E>>)
    requires |rs| == |rs'|
    requires forall i :: 0 <= i < |rs| ==> (rs[i].Err? <==> rs'[i].Err?)
    requires forall i :: 0 <= i < |rs| && rs[i].Err? ==> rs[i] == rs'[i]
    ensures Collect(rs).Err? <==> Collect(rs').Err?
    ensures Collect(rs).Err? ==> Collect(rs) == Collect(rs')
  {
    if rs != [] {
      CollectFailuresAgree(rs[1..], rs'[1..]);
    }
  }
}
