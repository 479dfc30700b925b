/** Bytes, options and little-endian integers, shared by the models of the individual libraries. */
module Bytes {
  type byte = b: int | 0 <= b < 256
  type bytes = seq<byte>

  datatype Option<+T> = None | Some(value: T)

  function Le2(n: nat): (b: bytes)
    requires n < 0x1_0000
    ensures |b| == 2 && Nat2(b, 0) == n
  {
    [n % 256, n / 256]
  }

  function Le3(n: nat): (b: bytes)
    requires n < 0x100_0000
    ensures |b| == 3 && Nat3(b, 0) == n
  {
    Le2(n % 0x1_0000) + [n / 0x1_0000]
  }

  function Le4(n: nat): (b: bytes)
    requires n < 0x1_0000_0000
    ensures |b| == 4 && Nat4(b, 0) == n
  {
    Le2(n % 0x1_0000) + Le2(n / 0x1_0000)
  }

  function Nat2(m: bytes, i: nat): (n: nat)
    requires i + 2 <= |m|
    ensures n < 0x1_0000
  {
    m[i] as int + 256 * (m[i + 1] as int)
  }

  function Nat3(m: bytes, i: nat): (n: nat)
    requires i + 3 <= |m|
    ensures n < 0x100_0000
  {
    Nat2(m, i) + 0x1_0000 * (m[i + 2] as int)
  }

  function Nat4(m: bytes, i: nat): (n: nat)
    requires i + 4 <= |m|
    ensures n < 0x1_0000_0000
  {
    Nat2(m, i) + 0x1_0000 * Nat2(m, i + 2)
  }

  /** The memory `m` with the bytes of `b` written from address `i` on (memcpy). */
  function Write(m: bytes, i: nat, b: bytes): (r: bytes)
    requires i + |b| <= |m|
    ensures |r| == |m|
    ensures r[i..i + |b|] == b
    ensures forall j :: 0 <= j < i || i + |b| <= j < |m| ==> r[j] == m[j]
  {
    m[..i] + b + m[i + |b|..]
  }

  function Zeros(n: nat): (z: bytes)
    ensures |z| == n && forall i :: 0 <= i < n ==> z[i] == 0
  {
    seq(n, _ => 0)
  }

  /** A slice of a slice. */
  lemma SubSlice<T>(m: seq<T>, i: nat, j: nat, a: nat, b: nat)
    requires i <= j <= |m| && a <= b <= j - i
    ensures m[i..j][a..b] == m[i + a..i + b]
  {
    var s, t := m[i..j][a..b], m[i + a..i + b];
    assert |s| == |t|;
    assert forall k :: 0 <= k < |s| ==> s[k] == m[i..j][a + k] == t[k];
  }
}
