/** Results that may be missing, and counting in sequences. */
module Wrappers {

  datatype Option<+T> = None | Some(value: T)

  /** How many of the first `n` elements are of a kind. */
  function Count<T>(kind: T -> bool, xs: seq<T>, n: nat): nat
    requires n <= |xs|
  {
    if n == 0 then 0 else Count(kind, xs, n - 1) + if kind(xs[n - 1]) then 1 else 0
  }

  lemma {:induction false} CountGrows<T>(kind: T -> bool, xs: seq<T>, m: nat, n: nat)
    requires m <= n <= |xs|
    ensures Count(kind, xs, m) <= Count(kind, xs, n) <= Count(kind, xs, m) + (n - m)
  {
    if m < n {
      CountGrows(kind, xs, m, n - 1);
    }
  }
}
