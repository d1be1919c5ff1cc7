/** Concatenating the images of a sequence, as Python's repeated `list.extend` does. */
module Sequences {

  /** f(xs[0]) + f(xs[1]) + ... + f(xs[|xs| - 1]). */
  function ConcatMap<T, U>(xs: seq<T>, f: T -> seq<U>): seq<U> {
    if |xs| == 0 then []
    else ConcatMap(xs[..|xs| - 1], f) + f(xs[|xs| - 1])
  }

  /** The images of a run of elements are the images of its parts, in order. */
  lemma {:induction false} ConcatMapAppend<T, U>(a: seq<T>, b: seq<T>, f: T -> seq<U>)
    ensures ConcatMap(a + b, f) == ConcatMap(a, f) + ConcatMap(b, f)
    decreases |b|
  {
    if |b| == 0 {
      assert a + b == a;
    } else {
      var init := b[..|b| - 1];
      assert (a + b)[..|a + b| - 1] == a + init;
      assert (a + b)[|a + b| - 1] == b[|b| - 1];
      ConcatMapAppend(a, init, f);
    }
  }

  lemma ConcatMapStep<T, U>(xs: seq<T>, i: nat, f: T -> seq<U>)
    requires i < |xs|
    ensures ConcatMap(xs[..i + 1], f) == ConcatMap(xs[..i], f) + f(xs[i])
  {
    assert xs[..i + 1][..i] == xs[..i];
  }
}
