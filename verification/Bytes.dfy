/** Fixed-width integers as bytes. */
module Bytes {
  import opened Common

  type byte = x: int | 0 <= x < 256

  const TWO_32: int := 0x1_0000_0000

  function Pow256(n: nat): nat {
    if n == 0 then 1 else 256 * Pow256(n - 1)
  }

  /** The w low bytes of u, most significant first. */
  function BigEndian(u: nat, w: nat): (b: seq<byte>)
    ensures |b| == w
  {
    if w == 0 then [] else BigEndian(u / 256, w - 1) + [u % 256]
  }

  function LittleEndian(u: nat, w: nat): (b: seq<byte>)
    ensures |b| == w
  {
    Rev(BigEndian(u, w))
  }

  /** The unsigned reading of big-endian bytes. */
  function Unsigned(b: seq<byte>): nat {
    if b == [] then 0 else 256 * Unsigned(b[..|b| - 1]) + b[|b| - 1]
  }

  lemma {:induction false} UnsignedBigEndian(u: nat, w: nat)
    requires u < Pow256(w)
    ensures Unsigned(BigEndian(u, w)) == u
  {
    if w > 0 {
      UnsignedBigEndian(u / 256, w - 1);
      assert BigEndian(u, w)[..w - 1] == BigEndian(u / 256, w - 1);
    }
  }

  /** uint64(x) of a Go int64. */
  function U64(x: int64): (u: nat)
    ensures u < TWO_64
  {
    x % TWO_64
  }

  lemma WidthOf64()
    ensures Pow256(8) == TWO_64 && Pow256(4) == TWO_32
  {
    assert Pow256(4) == TWO_32;
    assert Pow256(8) == 256 * (256 * (256 * (256 * Pow256(4))));
  }

  /** Reading back the eight bytes of an int64 and reinterpreting them as signed gives it back. */
  lemma SignedRoundTrip(x: int64)
    ensures Wrap(Unsigned(BigEndian(U64(x), 8))) == x
  {
    WidthOf64();
    UnsignedBigEndian(U64(x), 8);
  }

  lemma BigEndianInjective(a: nat, b: nat, w: nat)
    requires a < Pow256(w) && b < Pow256(w) && BigEndian(a, w) == BigEndian(b, w)
    ensures a == b
  {
    UnsignedBigEndian(a, w);
    UnsignedBigEndian(b, w);
  }

  lemma RevInjective<T>(a: seq<T>, b: seq<T>)
    requires Rev(a) == Rev(b)
    ensures a == b
  {
    forall i | 0 <= i < |a| ensures a[i] == b[i] {
      assert Rev(a)[|a| - 1 - i] == Rev(b)[|b| - 1 - i];
    }
  }

  lemma LittleEndianInjective(a: nat, b: nat, w: nat)
    requires a < Pow256(w) && b < Pow256(w) && LittleEndian(a, w) == LittleEndian(b, w)
    ensures a == b
  {
    RevInjective(BigEndian(a, w), BigEndian(b, w));
    BigEndianInjective(a, b, w);
  }
}
