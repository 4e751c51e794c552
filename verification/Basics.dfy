/** What several modules share: optional values, bytes, and sequences read from the end. */
module Basics {

  datatype Option<T> = None | Some(value: T)

  type Byte = x: nat | x < 256

  function LastFirst<T>(s: seq<T>): (r: seq<T>)
    ensures |r| == |s| && forall i :: 0 <= i < |s| ==> r[i] == s[|s| - 1 - i]
  {
    seq(|s|, i requires 0 <= i < |s| => s[|s| - 1 - i])
  }
}
