/** Failure-compatible result types shared by every module of the model. */
module Wrappers {

  /** A value that may be absent: JavaScript `null`/`undefined` at the typed level. */
  datatype Option<+T> = None | Some(value: T) {
    function GetOr(default: T): T {
      match this
      case Some(v) => v
      case None => default
    }
  }

  /** The outcome of code that may throw: `Err` carries the thrown message. */
  datatype Result<+T> = Ok(value: T) | Err(message: string) {
    predicate IsFailure() {
      Err?
    }

    function PropagateFailure<U>(): Result<U>
      requires Err?
    {
      Err(message)
    }

    function Extract(): T
      requires Ok?
    {
      value
    }
  }

  /** `xs.map(f)` where `f` may throw: the first throw aborts the whole map. */
  function MapResult<A, B>(xs: seq<A>, f: A -> Result<B>): (r: Result<seq<B>>)
    ensures r.Ok? <==> forall i | 0 <= i < |xs| :: f(xs[i]).Ok?
    ensures r.Ok? ==> |r.value| == |xs| && forall i | 0 <= i < |xs| :: r.value[i] == f(xs[i]).value
    ensures r.Err? ==> exists i | 0 <= i < |xs| :: f(xs[i]) == Err(r.message) && forall j | 0 <= j < i :: f(xs[j]).Ok?
  {
    if |xs| == 0 then Ok([])
    else
      match f(xs[0])
      case Err(m) => Err(m)
      case Ok(y) =>
        match MapResult(xs[1..], f)
        case Err(m) =>
          ghost var i :| 0 <= i < |xs[1..]| && f(xs[1..][i]) == Err(m) && forall j | 0 <= j < i :: f(xs[1..][j]).Ok?;
          assert f(xs[i + 1]) == Err(m);
          Err(m)
        case Ok(ys) => Ok([y] + ys)
  }
}
