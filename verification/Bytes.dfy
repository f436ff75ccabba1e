/** Bytes of shared memory and the little-endian integers stored in them. */
module Bytes {
  type byte = x: int | 0 <= x < 256

  /** The `k` low bytes of `n`, least significant first. */
  function Encode(n: nat, k: nat): (s: seq<byte>)
    ensures |s| == k
  {
    if k == 0 then [] else [n % 256] + Encode(n / 256, k - 1)
  }

  function Decode(s: seq<byte>): nat {
    if s == [] then 0 else s[0] + 256 * Decode(s[1..])
  }

  /** 256 to the power `k`. */
  function Width(k: nat): nat {
    if k == 0 then 1 else 256 * Width(k - 1)
  }

  lemma {:induction false} DecodeEncode(n: nat, k: nat)
    requires n < Width(k)
    ensures Decode(Encode(n, k)) == n
  {
    if k != 0 {
      DecodeEncode(n / 256, k - 1);
      assert Encode(n, k)[1..] == Encode(n / 256, k - 1);
    }
  }

  /** An integer cut down to a 32-bit unsigned word. */
  function Low32(x: int): (w: nat)
    ensures w < 0x1_0000_0000
  {
    x % 0x1_0000_0000
  }

  /** A 32-bit record length. */
  function U32(n: nat): (s: seq<byte>)
    ensures |s| == 4
  {
    Encode(n, 4)
  }

  lemma U32Width()
    ensures Width(4) == 0x1_0000_0000
  {
    assert Width(1) == 256;
    assert Width(2) == 256 * Width(1);
    assert Width(3) == 256 * Width(2);
  }

  lemma U32RoundTrip(n: nat)
    requires n < 0x1_0000_0000
    ensures Decode(U32(n)) == n
  {
    U32Width();
    DecodeEncode(n, 4);
  }

  lemma {:induction false} DecodeBounded(s: seq<byte>)
    ensures Decode(s) < Width(|s|)
  {
    if s != [] {
      DecodeBounded(s[1..]);
    }
  }

  /** A length field holds less than 2^32, whatever length was stored. */
  lemma U32Bounded(n: nat)
    ensures Decode(U32(n)) < 0x1_0000_0000
  {
    U32Width();
    DecodeBounded(U32(n));
  }

  /** Four zero bytes: the length field of a wrap marker. */
  const ZEROS: seq<byte> := [0, 0, 0, 0]

  lemma ZerosDecode()
    ensures Decode(ZEROS) == 0
  {
    assert ZEROS[1..] == [0, 0, 0];
    assert ZEROS[1..][1..] == [0, 0];
    assert ZEROS[1..][1..][1..] == [0];
  }
}
