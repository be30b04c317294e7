/** Byte strings and the few Python sequence operations the store is written in. */
module Bytes {
  type byte = bv8
  type bytes = seq<byte>

  datatype Option<+T> = None | Some(value: T)

  function Min(a: nat, b: nat): nat {
    if a < b then a else b
  }

  /** `bytearray(n)`. */
  function Zeros(n: nat): (z: bytes)
    ensures |z| == n && forall i :: 0 <= i < n ==> z[i] == 0
  {
    seq(n, _ => 0)
  }

  /** `s[lo:hi]` with Python's clamping of both ends. */
  function PySlice(s: bytes, lo: nat, hi: nat): bytes {
    var a, b := Min(lo, |s|), Min(hi, |s|);
    if a <= b then s[a..b] else []
  }

  /** `buf[at : at + len(d)] = d` on a bytearray: a slice past the end makes the buffer grow. */
  function PyPatch(buf: bytes, at: nat, d: bytes): bytes {
    buf[..Min(at, |buf|)] + d + buf[Min(at + |d|, |buf|)..]
  }

  /** `b * n` on a byte string. */
  function Repeat(s: bytes, n: nat): (r: bytes)
    ensures |r| == n * |s|
  {
    if n == 0 then [] else s + Repeat(s, n - 1)
  }

  /** A run of one byte. */
  function Fill(b: byte, n: nat): (r: bytes)
    ensures |r| == n && forall i :: 0 <= i < n ==> r[i] == b
  {
    seq(n, _ => b)
  }
}
