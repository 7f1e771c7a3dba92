/** Failure-compatible wrappers used for the scripts' exceptions and missing values. */
module Wrappers {

  /** A value that may be absent (pandas NaN, Python None). */
  datatype Option<+T> = None | Some(value: T)

  /** The errors the modelled Python code raises. */
  datatype Error =
    | NameError(path: string)         // missing input file
    | ValueError(message: string)     // duplicate names, failed unpacking, bad hex digits, empty argmin
    | NotImplementedError(flag: string)

  /** A computation that either yields a value or raises one of the errors above. */
  datatype Result<+T> = Success(value: T) | Failure(error: Error)

  /** `[f(x) for x in xs]` where `f` may raise: every result, or the error
      of the first element that raises. */
  function MapAll<T, U>(xs: seq<T>, f: T -> Result<U>): (r: Result<seq<U>>)
    ensures r.Success? <==> forall i :: 0 <= i < |xs| ==> f(xs[i]).Success?
    ensures r.Success? ==> |r.value| == |xs| && forall i :: 0 <= i < |xs| ==> r.value[i] == f(xs[i]).value
    ensures r.Failure? ==> exists i :: 0 <= i < |xs| && f(xs[i]) == Failure(r.error)
                                       && forall j :: 0 <= j < i ==> f(xs[j]).Success?
  {
    if xs == [] then Success([])
    else
      var head := f(xs[0]);
      var tail := MapAll(xs[1..], f);
      if head.Failure? then
        Failure(head.error)
      else if tail.Failure? then
        var i :| 0 <= i < |xs[1..]| && f(xs[1..][i]) == Failure(tail.error)
                 && forall j :: 0 <= j < i ==> f(xs[1..][j]).Success?;
        assert f(xs[i + 1]) == Failure(tail.error);
        assert forall j :: 1 <= j < i + 1 ==> xs[j] == xs[1..][j - 1];
        Failure(tail.error)
      else
        var r := [head.value] + tail.value;
        assert forall i :: 1 <= i < |xs| ==> xs[i] == xs[1..][i - 1] && r[i] == tail.value[i - 1];
        Success(r)
  }
}
