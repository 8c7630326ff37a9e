/** Failure-compatible wrappers shared by every module of the model. */
module Wrappers {

  /** A value that may be absent: Python's `None` versus a present value. */
  datatype Option<+T> = None | Some(value: T) {

    predicate IsFailure() {
      None?
    }

    function PropagateFailure<U>(): Option<U>
      requires None?
    {
      None
    }

    function Extract(): T
      requires Some?
    {
      value
    }

    function GetOr(default: T): T {
      match this
      case Some(v) => v
      case None => default
    }
  }

  /** Either a computed value or the error that ended the computation. */
  datatype Result<+R, +E> = Ok(value: R) | Err(error: E) {

    predicate IsFailure() {
      Err?
    }

    function PropagateFailure<U>(): Result<U, E>
      requires Err?
    {
      Err(error)
    }

    function Extract(): R
      requires Ok?
    {
      value
    }
  }

  /** A loop that applies `f` to each element in turn and stops at the first error: every
      result when none fails, else the error of the first element that fails. */
  function MapAll<X, T, E>(f: X -> Result<T, E>, xs: seq<X>): (r: Result<seq<T>, E>)
    ensures r.Ok? <==> forall k :: 0 <= k < |xs| ==> f(xs[k]).Ok?
    ensures r.Ok? ==> |r.value| == |xs| && forall k :: 0 <= k < |xs| ==> f(xs[k]) == Ok(r.value[k])
    ensures r.Err? ==> exists k :: (0 <= k < |xs| && f(xs[k]) == Err(r.error)
      && forall j :: 0 <= j < k ==> f(xs[j]).Ok?)
  {
    if |xs| == 0 then Ok([])
    else
      match f(xs[0])
      case Err(e) => Err(e)
      case Ok(y) =>
        assert forall k :: 0 <= k < |xs| - 1 ==> xs[1..][k] == xs[k + 1];
        match MapAll(f, xs[1..])
        case Err(e) => Err(e)
        case Ok(ys) => Ok([y] + ys)
  }

  /** The lists one after another: what `extend` in a loop, or an `append` in nested loops, builds. */
  function Concat<T>(xss: seq<seq<T>>): seq<T> {
    if |xss| == 0 then [] else Concat(xss[..|xss| - 1]) + xss[|xss| - 1]
  }

  /** The lengths of the lists added up. */
  function TotalLength<T>(xss: seq<seq<T>>): nat {
    if |xss| == 0 then 0 else TotalLength(xss[..|xss| - 1]) + |xss[|xss| - 1]|
  }

  lemma {:induction false} ConcatLength<T>(xss: seq<seq<T>>)
    ensures |Concat(xss)| == TotalLength(xss)
  {
    if |xss| > 0 {
      ConcatLength(xss[..|xss| - 1]);
    }
  }

  /** Item `j` of list `i` sits after all the items of the lists before it: the lists keep their
      order and so do the items within each. */
  lemma {:induction false} ConcatAt<T>(xss: seq<seq<T>>, i: nat, j: nat)
    requires i < |xss| && j < |xss[i]|
    ensures TotalLength(xss[..i]) + j < |Concat(xss)|
    ensures Concat(xss)[TotalLength(xss[..i]) + j] == xss[i][j]
  {
    var n := |xss| - 1;
    var init := xss[..n];
    ConcatLength(init);
    if i == n {
      assert xss[..i] == init;
    } else {
      assert xss[..i] == init[..i];
      ConcatAt(init, i, j);
    }
  }

  /** Lists of lists whose lists have the same lengths have the same total length. */
  lemma {:induction false} TotalLengthSame<T, U>(xss: seq<seq<T>>, yss: seq<seq<U>>)
    requires |xss| == |yss| && forall i :: 0 <= i < |xss| ==> |xss[i]| == |yss[i]|
    ensures TotalLength(xss) == TotalLength(yss)
  {
    if |xss| > 0 {
      TotalLengthSame(xss[..|xss| - 1], yss[..|yss| - 1]);
    }
  }

  /** Flattening lists made one for one from the lists `shape`: as many elements as `shape`
      holds, and element `j` of list `i` sits after the lists before it. */
  lemma ConcatShaped<T, U>(xss: seq<seq<T>>, shape: seq<seq<U>>, i: nat, j: nat)
    requires |xss| == |shape| && forall n :: 0 <= n < |xss| ==> |xss[n]| == |shape[n]|
    ensures |Concat(xss)| == TotalLength(shape)
    ensures i < |shape| && j < |shape[i]| ==>
      TotalLength(shape[..i]) + j < |Concat(xss)| && Concat(xss)[TotalLength(shape[..i]) + j] == xss[i][j]
  {
    ConcatLength(xss);
    TotalLengthSame(xss, shape);
    if i < |shape| && j < |shape[i]| {
      ConcatAt(xss, i, j);
      TotalLengthSame(xss[..i], shape[..i]);
    }
  }
}

