/** What the modules share: a nullable column, and running steps one after the other. */
module Prelude {
  datatype Option<+T> = None | Some(value: T)

  function Fold<S, T>(f: (S, T) -> S, s: S, steps: seq<T>): S {
    if steps == [] then s else f(Fold(f, s, steps[..|steps| - 1]), steps[|steps| - 1])
  }

  lemma {:induction false} FoldConcat<S, T>(f: (S, T) -> S, s: S, a: seq<T>, b: seq<T>)
    ensures Fold(f, s, a + b) == Fold(f, Fold(f, s, a), b)
  {
    if b == [] {
      assert a + b == a;
    } else {
      var m := |b| - 1;
      FoldConcat(f, s, a, b[..m]);
      assert (a + b)[..|a + b| - 1] == a + b[..m] && (a + b)[|a + b| - 1] == b[m];
    }
  }
}
