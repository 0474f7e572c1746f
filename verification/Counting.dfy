/** How often something happened in a run. */
module Counting {

  /** How many of the first n are true. */
  function Count(b: seq<bool>, n: nat): nat
    requires n <= |b|
  {
    if n == 0 then 0 else Count(b, n - 1) + if b[n - 1] then 1 else 0
  }

  lemma {:induction false} CountGrows(b: seq<bool>, m: nat, n: nat)
    requires m <= n <= |b|
    ensures Count(b, m) <= Count(b, n)
  {
    if m < n { CountGrows(b, m, n - 1); }
  }

  lemma {:induction false} NothingCounted(b: seq<bool>, n: nat)
    requires n <= |b| && forall i :: 0 <= i < n ==> !b[i]
    ensures Count(b, n) == 0
  {
    if n > 0 { NothingCounted(b, n - 1); }
  }
}
