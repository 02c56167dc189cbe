/** The numbers that shape a file, and the bits of the free map. */
module FsLayout {
  import opened Blocks

  const NDIRECT := 12
  const NINDIRECT := 256
  const MAXFILE := 268
  /** Bitmap bits per block. */
  const BPB := 8192
  /** Inodes per block, of sixteen words each. */
  const IPB := 16

  // ----- Bits -----

  /** `(x & (1 << k)) != 0`. */
  predicate TestBit(x: nat, k: nat) {
    if k == 0 then x % 2 == 1 else TestBit(x / 2, k - 1)
  }

  /** `x | (1 << k)`. */
  function OrBit(x: nat, k: nat): nat {
    if k == 0 then x / 2 * 2 + 1 else OrBit(x / 2, k - 1) * 2 + x % 2
  }

  /** `x & ~(1 << k)`. */
  function AndNotBit(x: nat, k: nat): nat {
    if k == 0 then x / 2 * 2 else AndNotBit(x / 2, k - 1) * 2 + x % 2
  }

  lemma {:induction false} OrBitTests(x: nat, k: nat, j: nat)
    ensures TestBit(OrBit(x, k), j) <==> j == k || TestBit(x, j)
  {
    if k > 0 && j > 0 {
      OrBitTests(x / 2, k - 1, j - 1);
    }
  }

  lemma {:induction false} AndNotBitTests(x: nat, k: nat, j: nat)
    ensures TestBit(AndNotBit(x, k), j) <==> j != k && TestBit(x, j)
  {
    if k > 0 && j > 0 {
      AndNotBitTests(x / 2, k - 1, j - 1);
    }
  }

  function Pow2(n: nat): nat {
    if n == 0 then 1 else 2 * Pow2(n - 1)
  }

  lemma {:induction false} BitOpsFit(x: nat, k: nat, n: nat)
    requires k < n && x < Pow2(n)
    ensures OrBit(x, k) < Pow2(n) && AndNotBit(x, k) < Pow2(n)
  {
    if k > 0 {
      BitOpsFit(x / 2, k - 1, n - 1);
    }
  }

  lemma ByteOpsFit(x: Byte, k: nat)
    requires k < 8
    ensures OrBit(x, k) < 256 && AndNotBit(x, k) < 256
  {
    assert Pow2(8) == 256;
    BitOpsFit(x, k, 8);
  }
}
