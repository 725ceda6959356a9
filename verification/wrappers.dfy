/** Failure-compatible optional values, used wherever the source may find nothing
    (a missing file, an absent attribute, a regex that does not match). */
module Wrappers {

  datatype Option<+T> = None | Some(value: T) {

    /** True if is None */
    predicate IsFailure() {
      None?
    }

    function PropagateFailure<U>(): Option<U>
      requires None?
    {
      None
    }

    function Extract(): T
      requires Some?
    {
      value
    }

    /** The value, or `default` when there is none (Python's `x or default`). */
    function GetOr(default: T): T {
      match this
      case Some(v) => v
      case None => default
    }
  }

  /** The first value present, and where it is: Python's `a or b or ...` over
      optional objects, and a search over candidate positions. */
  function FirstSome<T>(xs: seq<Option<T>>): (r: Option<T>)
    ensures r.None? <==> forall i :: 0 <= i < |xs| ==> xs[i].None?
    ensures r.Some? ==> exists i :: 0 <= i < |xs| && xs[i] == r && forall j :: 0 <= j < i ==> xs[j].None?
  {
    if |xs| == 0 then None
    else if xs[0].Some? then xs[0]
    else
      var r := FirstSome(xs[1..]);
      assert forall i :: 1 <= i < |xs| ==> xs[i] == xs[1..][i - 1];
      r
  }
}
