/** Small shared vocabulary: an optional value. */
module Base {

  datatype Option<+T> = None | Some(value: T) {

    /** Returns the value held in Some, or the given default for None. */
    function GetOr(default: T): T {
      match this
      case Some(v) => v
      case None => default
    }
  }

  function Min(a: int, b: int): int { if a <= b then a else b }

  function Max(a: int, b: int): int { if a <= b then b else a }

  function MaxReal(a: real, b: real): real { if a <= b then b else a }

  /** Applies `f` to every element, or fails as a whole when `f` fails on any. */
  function MapAll<A, B>(xs: seq<A>, f: A -> Option<B>): (r: Option<seq<B>>)
    ensures r.Some? <==> forall i :: 0 <= i < |xs| ==> f(xs[i]).Some?
    ensures r.Some? ==> |r.value| == |xs|
    ensures r.Some? ==> forall i :: 0 <= i < |xs| ==> r.value[i] == f(xs[i]).value
  {
    if |xs| == 0 then Some([])
    else
      var rest := MapAll(xs[1..], f);
      assert forall i :: 1 <= i < |xs| ==> xs[i] == xs[1..][i - 1];
      if f(xs[0]).None? || rest.None? then None else Some([f(xs[0]).value] + rest.value)
  }
}
