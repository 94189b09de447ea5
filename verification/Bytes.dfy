/** Bytes and big-endian integers. */
module Bytes {

  type byte = x: int | 0 <= x < 256

  type Bytes = seq<byte>

  function U16(n: nat): (b: Bytes)
    requires n < 0x1_0000
    ensures |b| == 2
  {
    [n / 0x100, n % 0x100]
  }

  function N16(b: Bytes): (n: nat)
    requires |b| == 2
    ensures n < 0x1_0000
  {
    (b[0] as int) * 0x100 + b[1]
  }

  function U32(n: nat): (b: Bytes)
    requires n < 0x1_0000_0000
    ensures |b| == 4
  {
    U16(n / 0x1_0000) + U16(n % 0x1_0000)
  }

  function N32(b: Bytes): (n: nat)
    requires |b| == 4
    ensures n < 0x1_0000_0000
  {
    N16(b[..2]) * 0x1_0000 + N16(b[2..])
  }

  function U64(n: nat): (b: Bytes)
    requires n < 0x1_0000_0000_0000_0000
    ensures |b| == 8
  {
    U32(n / 0x1_0000_0000) + U32(n % 0x1_0000_0000)
  }

  function N64(b: Bytes): (n: nat)
    requires |b| == 8
    ensures n < 0x1_0000_0000_0000_0000
  {
    N32(b[..4]) * 0x1_0000_0000 + N32(b[4..])
  }

  lemma Cut(a: Bytes, b: Bytes)
    ensures (a + b)[..|a|] == a && (a + b)[|a|..] == b
  {
  }

  lemma N16U16(n: nat)
    requires n < 0x1_0000
    ensures N16(U16(n)) == n
  {
  }

  lemma U16N16(b: Bytes)
    requires |b| == 2
    ensures U16(N16(b)) == b
  {
  }

  lemma N32U32(n: nat)
    requires n < 0x1_0000_0000
    ensures N32(U32(n)) == n
  {
    Cut(U16(n / 0x1_0000), U16(n % 0x1_0000));
    N16U16(n / 0x1_0000);
    N16U16(n % 0x1_0000);
  }

  lemma U32N32(b: Bytes)
    requires |b| == 4
    ensures U32(N32(b)) == b
  {
    hide N16, U16;
    U16N16(b[..2]);
    U16N16(b[2..]);
    assert b == b[..2] + b[2..];
  }

  lemma N64U64(n: nat)
    requires n < 0x1_0000_0000_0000_0000
    ensures N64(U64(n)) == n
  {
    hide N32, U32;
    Cut(U32(n / 0x1_0000_0000), U32(n % 0x1_0000_0000));
    N32U32(n / 0x1_0000_0000);
    N32U32(n % 0x1_0000_0000);
  }

  lemma U64N64(b: Bytes)
    requires |b| == 8
    ensures U64(N64(b)) == b
  {
    hide N32, U32;
    U32N32(b[..4]);
    U32N32(b[4..]);
    assert b == b[..4] + b[4..];
  }

  function Zeros(n: nat): (b: Bytes)
    ensures |b| == n && forall i :: 0 <= i < n ==> b[i] == 0
  {
    seq(n, _ => 0)
  }

  predicate AllZero(b: Bytes) {
    forall i :: 0 <= i < |b| ==> b[i] == 0
  }

  lemma AllZeroIsZeros(b: Bytes)
    ensures AllZero(b) <==> b == Zeros(|b|)
  {
  }

  /** Copies bytes into a buffer that is filled up to there, and leaves the rest of it alone. */
  method Put(a: array<byte>, at: nat, b: Bytes, ghost filled: Bytes)
    requires at + |b| <= a.Length && a[..at] == filled
    modifies a
    ensures a[..at + |b|] == filled + b && forall j :: at + |b| <= j < a.Length ==> a[j] == old(a[j])
  {
    for i := 0 to |b|
      invariant a[..at + i] == filled + b[..i] && forall j :: at + i <= j < a.Length ==> a[j] == old(a[j])
    {
      a[at + i] := b[i];
      assert b[..i + 1] == b[..i] + [b[i]];
    }
    assert b[..|b|] == b;
  }
}
