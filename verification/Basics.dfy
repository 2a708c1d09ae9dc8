/** Types and facts shared by the models. */
module Basics {

  type Byte = b: nat | b < 256

  datatype Option<+T> = None | Some(value: T)

  /** Pieces put one after another. */
  function Flatten<T>(pieces: seq<seq<T>>): seq<T> {
    if pieces == [] then [] else pieces[0] + Flatten(pieces[1..])
  }

  lemma Regroup<T>(a: seq<T>, b: seq<T>, c: seq<T>)
    ensures (a + b) + c == a + (b + c)
  {
  }

  /** A product kept as a term of its own, for squares. */
  function Times(a: real, b: real): real {
    a * b
  }

  lemma PositiveProduct(a: real, b: real)
    requires a > 0.0 && b > 0.0
    ensures a * b > 0.0 && Times(a, b) > 0.0
  {
  }

  lemma {:induction false} AtLeastOnce(n: nat, k: nat)
    requires k > 0
    ensures n * k >= n
  {
    if k > 1 {
      AtLeastOnce(n, k - 1);
      assert n * k == n * (k - 1) + n;
    }
  }

  lemma EightThirds(n: nat)
    requires n % 3 == 0
    ensures (8 * n) % 6 == 0
  {
    assert 8 * n == 6 * (4 * (n / 3));
  }

  /** The multiples of n are n apart. */
  lemma NextMultiple(n: nat, a: int, b: int)
    requires a < b
    ensures n * a + n <= n * b
  {
    AtLeastOnce(n, b - a);
    assert n * b == n * a + n * (b - a);
  }
}
