/** Absent values, exceptions and the list mapping shared by the catalog parsers. */
module Exceptions {

  /** A PHP value that may be `null` (or the `false` some library calls return instead of a value). */
  datatype Option<+T> = None | Some(value: T)

  /** The exceptions the modelled code throws; every one carries the text `getMessage()` returns. */
  datatype Error =
    | InvalidArgument(message: string)   // InvalidArgumentException
    | Logic(message: string)             // LogicException
    | TypeError(message: string)         // TypeError from a typed property or parameter
    | UnexpectedValue(message: string)   // UnexpectedValueException
    | ErrorException(message: string)    // a PHP warning that the host's error handler throws

  /** A value, or the exception thrown while computing it. */
  datatype Result<+T> = Ok(value: T) | Err(error: Error) {
    predicate IsFailure() { Err? }

    function PropagateFailure<U>(): Result<U>
      requires Err?
    {
      Err(error)
    }

    function Extract(): T
      requires Ok?
    {
      value
    }
  }

  /** A call that returns nothing, or throws. */
  datatype Outcome = Pass | Fail(error: Error)

  /**
   * PHP's `array_map` with a callback that may throw: the callback is applied to the
   * elements in order and the first exception escapes, so either every element is
   * converted, in place, or the first failing element's exception is the result.
   */
  function MapAll<A, B>(f: A -> Result<B>, xs: seq<A>): (r: Result<seq<B>>)
    ensures r.Ok? <==> forall i :: 0 <= i < |xs| ==> f(xs[i]).Ok?
    ensures r.Ok? ==> |r.value| == |xs| && forall i :: 0 <= i < |xs| ==> f(xs[i]) == Ok(r.value[i])
    ensures r.Err? ==>
              exists k :: 0 <= k < |xs| && f(xs[k]) == Err(r.error) && forall j :: 0 <= j < k ==> f(xs[j]).Ok?
  {
    if xs == [] then Ok([])
    else
      match f(xs[0])
      case Err(e) => Err(e)
      case Ok(y) =>
        match MapAll(f, xs[1..])
        case Err(e) =>
          ghost var k :| 0 <= k < |xs[1..]| && f(xs[1..][k]) == Err(e)
                         && forall j :: 0 <= j < k ==> f(xs[1..][j]).Ok?;
          assert f(xs[k + 1]) == Err(e) && forall j :: 0 <= j < k + 1 ==> f(xs[j]).Ok? by {
            forall j | 0 <= j < k + 1 ensures f(xs[j]).Ok? {
              if j > 0 { assert xs[j] == xs[1..][j - 1]; }
            }
          }
          Err(e)
        case Ok(ys) => Ok([y] + ys)
  }

  /** Concatenation regroups freely. */
  lemma AppendAssoc<T>(a: seq<T>, b: seq<T>, c: seq<T>)
    ensures (a + b) + c == a + (b + c)
  {
  }
}
