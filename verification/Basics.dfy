/** Vocabulary shared by every component of the model. */
module Basics {
  /** One octet of captured traffic. */
  type Byte = x: int | 0 <= x < 256

  datatype Option<+T> = None | Some(value: T)

  function Min(a: int, b: int): int {
    if a <= b then a else b
  }

  /** At most the first `n` bytes. */
  function FirstBytes(s: seq<Byte>, n: nat): seq<Byte> {
    s[..Min(n, |s|)]
  }

  lemma SliceOfSlice<T>(s: seq<T>, from: nat, to: nat, lo: nat, hi: nat)
    requires from + hi <= to <= |s| && lo <= hi
    ensures s[from..to][lo..hi] == s[from + lo..from + hi]
  {
    var a, b := s[from..to][lo..hi], s[from + lo..from + hi];
    assert |a| == |b|;
    assert forall i | 0 <= i < |a| :: a[i] == b[i];
  }

  /** The sequence with `x` put in at index `n`. */
  function Spliced<T>(s: seq<T>, n: nat, x: T): (t: seq<T>)
    requires n <= |s|
    ensures |t| == |s| + 1
  {
    s[..n] + [x] + s[n..]
  }

  /** The direction of a stream inside its flow. */
  datatype Direction = AToB | BToA

  function Max(a: int, b: int): int {
    if a <= b then b else a
  }
}
