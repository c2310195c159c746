/**
 Definitions that several models share.
 */
module Basics {

  /** 32-bit words count up to here. */
  const UINT_LIMIT := 0x1_0000_0000

  datatype Option<T> = None | Some(value: T)

  /** s with its j-th element taken out. */
  function Without<T>(s: seq<T>, j: nat): (r: seq<T>)
    requires j < |s|
    ensures |r| == |s| - 1
    ensures forall i :: 0 <= i < |r| ==> r[i] == if i < j then s[i] else s[i + 1]
  {
    s[..j] + s[j + 1..]
  }
}
