/** Sequences of equal elements, and copying into the middle of a sequence. */
module Seqs {
  function Repeat<T>(x: T, n: nat): (s: seq<T>)
    ensures |s| == n && forall i :: 0 <= i < n ==> s[i] == x
  {
    seq(n, _ => x)
  }

  /** `memmove` of `piece` to offset `o`. */
  function Spliced<T>(s: seq<T>, o: nat, piece: seq<T>): seq<T>
    requires o + |piece| <= |s|
  {
    s[..o] + piece + s[o + |piece|..]
  }
}
