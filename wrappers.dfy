/** Option and Result values: Python's `None` and raised exceptions become data. */
module Wrappers {

  datatype Option<+T> = None | Some(value: T)

  /** `Ok` carries a normal return value, `Err` the exception that escaped. */
  datatype Result<+T, +E> = Ok(value: T) | Err(error: E)

  /**
   * Applies `f` to each element in order and stops at the first error:
   * `Ok` of all the results when every application succeeds, otherwise the
   * error of the first one that fails.
   */
  function Collect<A, B, E>(xs: seq<A>, f: A -> Result<B, E>): (r: Result<seq<B>, E>)
    ensures r.Ok? <==> forall i :: 0 <= i < |xs| ==> f(xs[i]).Ok?
    ensures r.Ok? ==> |r.value| == |xs| && forall i :: 0 <= i < |xs| ==> f(xs[i]) == Ok(r.value[i])
    ensures r.Err? ==> exists i :: 0 <= i < |xs| && f(xs[i]) == Err(r.error)
                                   && forall j :: 0 <= j < i ==> f(xs[j]).Ok?
    decreases |xs|
  {
    if |xs| == 0 then Ok([])
    else
      var init, last := xs[..|xs| - 1], xs[|xs| - 1];
      assert forall i :: 0 <= i < |init| ==> init[i] == xs[i];
      match Collect(init, f)
      case Err(e) => Err(e)
      case Ok(ys) =>
        match f(last)
        case Err(e) => Err(e)
        case Ok(y) => Ok(ys + [y])
  }

  /** The error `Collect` reports is that of the first element that fails. */
  lemma CollectFirstError<A, B, E>(xs: seq<A>, f: A -> Result<B, E>, i: nat)
    requires i < |xs| && f(xs[i]).Err?
    requires forall j :: 0 <= j < i ==> f(xs[j]).Ok?
    ensures Collect(xs, f) == Err(f(xs[i]).error)
  {
  }

  /** `Collect` depends only on the results `f` gives, element by element. */
  lemma {:induction false} CollectPointwise<A, B, E>(xs: seq<A>, ys: seq<A>, f: A -> Result<B, E>)
    requires |xs| == |ys|
    requires forall i :: 0 <= i < |xs| ==> f(xs[i]) == f(ys[i])
    ensures Collect(xs, f) == Collect(ys, f)
    decreases |xs|
  {
    if |xs| > 0 {
      var n := |xs| - 1;
      assert forall i :: 0 <= i < n ==> xs[..n][i] == xs[i] && ys[..n][i] == ys[i];
      CollectPointwise(xs[..n], ys[..n], f);
    }
  }
}
