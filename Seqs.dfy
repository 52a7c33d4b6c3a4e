/**
 * Sequence helpers shared by the kernel's tables and lists: the stack table of the
 * heap, the IPC message queue and the ready queue all drop one entry by position.
 */
module Seqs {

  /** The sequence without its i-th element: the elements before i stay, the ones after move down one place. */
  function RemoveAt<T>(s: seq<T>, i: nat): (r: seq<T>)
    requires i < |s|
    ensures |r| == |s| - 1
    ensures forall k :: 0 <= k < i ==> r[k] == s[k]
    ensures forall k :: i <= k < |r| ==> r[k] == s[k + 1]
  {
    s[..i] + s[i + 1..]
  }
}
