/** Optional values (Java null, JavaScript undefined) and results that may carry a thrown exception. */
module Wrappers {

  datatype Option<+T> = None | Some(value: T) {
    /** The value, or `default` when absent (Java's `x != null ? x : default`). */
    function GetOr(default: T): T {
      match this
      case Some(v) => v
      case None => default
    }
  }

  datatype Result<+R, +E> = Success(value: R) | Failure(error: E)

  /** `ys` holds, position by position, the successful result of `f` on each element of `xs`. */
  ghost predicate InStep<A, B, E>(xs: seq<A>, ys: seq<B>, f: A -> Result<B, E>) {
    |ys| == |xs| && forall k :: 0 <= k < |xs| ==> f(xs[k]) == Success(ys[k])
  }

  /** Appending an element and its result keeps the two sequences in step. */
  lemma InStepAppend<A, B, E>(xs: seq<A>, ys: seq<B>, x: A, y: B, f: A -> Result<B, E>)
    requires InStep(xs, ys, f)
    requires f(x) == Success(y)
    ensures InStep(xs + [x], ys + [y], f)
  {
    var xs', ys' := xs + [x], ys + [y];
    forall k | 0 <= k < |xs'|
      ensures f(xs'[k]) == Success(ys'[k])
    {
      if k < |xs| {
        assert xs'[k] == xs[k] && ys'[k] == ys[k];
      }
    }
  }

  /** Putting an element and its result in front keeps the two sequences in step. */
  lemma InStepCons<A, B, E>(x: A, y: B, xs: seq<A>, ys: seq<B>, f: A -> Result<B, E>)
    requires f(x) == Success(y)
    requires InStep(xs, ys, f)
    ensures InStep([x] + xs, [y] + ys, f)
  {
    var xs', ys' := [x] + xs, [y] + ys;
    forall k | 0 <= k < |xs'|
      ensures f(xs'[k]) == Success(ys'[k])
    {
      if k > 0 {
        assert xs'[k] == xs[k - 1] && ys'[k] == ys[k - 1];
      }
    }
  }

  /** A loop over `xs` that has mapped the first `i` elements maps one more. */
  lemma InStepExtend<A, B, E>(xs: seq<A>, i: nat, ys: seq<B>, y: B, f: A -> Result<B, E>)
    requires i < |xs|
    requires InStep(xs[..i], ys, f)
    requires f(xs[i]) == Success(y)
    ensures InStep(xs[..i + 1], ys + [y], f)
  {
    assert xs[..i + 1] == xs[..i] + [xs[i]];
    InStepAppend(xs[..i], ys, xs[i], y, f);
  }
}
