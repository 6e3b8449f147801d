/**
 * Small shared definitions: the failure-carrying result used where the
 * source raises an exception, and the all-zero list the source builds with
 * `[0] * n`.
 */
module Wrappers {

  datatype Option<T> = None | Some(value: T)

  /** `[0] * n` */
  function Zeros(n: nat): (r: seq<int>)
    ensures |r| == n && forall i :: 0 <= i < n ==> r[i] == 0
  {
    seq(n, _ => 0)
  }
}
