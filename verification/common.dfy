/** What every module of the model shares: the failure-carrying datatypes
    `Option` and `Result`, the `Number(x) || 0` reading of a form input, and
    `splice(i, 1)` on a sequence. */
module Common {

  /** A value that may be absent: a missing JSON key, an empty form input. */
  datatype Option<+T> = None | Some(value: T)

  /** The outcome of an editor action or server request: a new value or the reason it was refused. */
  datatype Result<+R, +E> = Success(value: R) | Failure(error: E)

  /** JavaScript's `Number(x) || 0` on a form input: an input that is absent or not a
      number (modelled as None) and the number 0 both read as 0; any other number is kept. */
  function Coerce(x: Option<real>): (r: real)
    ensures r != 0.0 <==> x.Some? && x.value != 0.0
    ensures r != 0.0 ==> x == Some(r)
  {
    match x
    case None => 0.0
    case Some(v) => v
  }

  /** `Array.prototype.splice(i, 1)` for a non-negative index: removes the
      element at `i` and keeps the others in order; an index past the end
      removes nothing. */
  function RemoveAt<T>(xs: seq<T>, i: nat): (r: seq<T>)
    ensures i < |xs| ==> |r| == |xs| - 1 && multiset(r) == multiset(xs) - multiset{xs[i]}
    ensures i < |xs| ==> forall j :: 0 <= j < |r| ==> r[j] == (if j < i then xs[j] else xs[j + 1])
    ensures i >= |xs| ==> r == xs
  {
    if i < |xs| then MultisetRemove(xs, i); xs[..i] + xs[i + 1..] else xs
  }

  lemma MultisetRemove<T>(xs: seq<T>, k: nat)
    requires k < |xs|
    ensures multiset(xs[..k] + xs[k + 1..]) == multiset(xs) - multiset{xs[k]}
  {
    assert xs == xs[..k] + [xs[k]] + xs[k + 1..];
  }
}
