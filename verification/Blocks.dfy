/**
 Disk blocks as bytes, as 32-bit words and as bitmaps (kernel/fs.h, kernel/fs.c).
 */
module Blocks {

  const BSIZE: nat := 1024
  const BPB: nat := 8192        // bits per bitmap block
  const NINDIRECT: nat := 256   // words per block
  const UINT: nat := 0x1_0000_0000

  type Byte = x: nat | x < 256
  type Block = b: seq<Byte> | |b| == BSIZE witness seq(BSIZE, _ => 0)

  function Zeroed(): Block { seq(BSIZE, _ => 0) }

  // ---------------------------------------------------------------- words

  /** ((uint*)data)[k] */
  function Word(b: Block, k: nat): (x: nat)
    requires k < NINDIRECT
    ensures x < UINT
  {
    var b0: nat, b1: nat, b2: nat, b3: nat := b[4 * k], b[4 * k + 1], b[4 * k + 2], b[4 * k + 3];
    b0 + 256 * b1 + 65536 * b2 + 16777216 * b3
  }

  function SetWord(b: Block, k: nat, x: nat): Block
    requires k < NINDIRECT && x < UINT
  {
    b[4 * k := x % 256][4 * k + 1 := x / 256 % 256][4 * k + 2 := x / 65536 % 256][4 * k + 3 := x / 16777216 % 256]
  }

  lemma Bytes(x: nat)
    requires x < UINT
    ensures x % 256 + 256 * (x / 256 % 256) + 65536 * (x / 65536 % 256) + 16777216 * (x / 16777216 % 256) == x
  {
    var y := x / 256;
    var z := y / 256;
    assert z == x / 65536 && z / 256 == x / 16777216;
  }

  lemma WordSet(b: Block, k: nat, x: nat, j: nat)
    requires k < NINDIRECT && j < NINDIRECT && x < UINT
    ensures Word(SetWord(b, k, x), j) == if j == k then x else Word(b, j)
  {
    Bytes(x);
  }

  /** Words are stored with the low byte first. */
  lemma WordBytes(b: Block, k: nat)
    requires k < NINDIRECT
    ensures var x := Word(b, k);
            x % 256 == b[4 * k] && x / 256 % 256 == b[4 * k + 1] && x / 65536 % 256 == b[4 * k + 2] &&
            x / 16777216 == b[4 * k + 3]
  {
    var x := Word(b, k);
    var b0: nat, b1: nat, b2: nat, b3: nat := b[4 * k], b[4 * k + 1], b[4 * k + 2], b[4 * k + 3];
    LowByte(x, b0, b1 + 256 * b2 + 65536 * b3);
    LowByte(x / 256, b1, b2 + 256 * b3);
    LowByte(x / 256 / 256, b2, b3);
    assert x / 65536 == x / 256 / 256 && x / 16777216 == x / 256 / 256 / 256;
  }

  lemma LowByte(x: nat, low: nat, rest: nat)
    requires x == low + 256 * rest && low < 256
    ensures x % 256 == low && x / 256 == rest
  {
  }

  // ---------------------------------------------------------------- bits

  /** (x & (1 << k)) != 0 */
  predicate HasBit(x: nat, k: nat) {
    if k == 0 then x % 2 == 1 else HasBit(x / 2, k - 1)
  }

  /** Bit k counts 2^k. */
  lemma {:induction false} HasBitIs(x: nat, k: nat)
    ensures Pow2(k) > 0 && (HasBit(x, k) <==> x / Pow2(k) % 2 == 1)
  {
    if k > 0 {
      HasBitIs(x / 2, k - 1);
      DivTwice(x, Pow2(k - 1));
    }
  }

  lemma DivTwice(x: nat, d: nat)
    requires d > 0
    ensures x / (2 * d) == x / 2 / d
  {
    var q, r := x / 2 / d, x / 2 % d;
    assert x / 2 == q * d + r;
    assert x == q * (2 * d) + (2 * r + x % 2);
    DivIs(x, q, 2 * d, 2 * r + x % 2);
  }

  lemma DivIs(x: nat, q: nat, d: nat, r: nat)
    requires d > 0 && x == q * d + r && r < d
    ensures x / d == q
  {
    var k := x / d;
    assert x == k * d + x % d;
    assert (k + 1) * d == k * d + d && (q + 1) * d == q * d + d;
    Less(q, k + 1, d);
    Less(k, q + 1, d);
  }

  lemma Less(a: int, b: int, c: int)
    requires c > 0 && a * c < b * c
    ensures a < b
  {
    assert (b - a) * c > 0;
  }

  /** x | (1 << k), or x & ~(1 << k) */
  function PutBit(x: nat, k: nat, on: bool): nat {
    if k == 0 then x - x % 2 + (if on then 1 else 0) else x % 2 + 2 * PutBit(x / 2, k - 1, on)
  }

  lemma {:induction false} PutBitHas(x: nat, k: nat, on: bool, j: nat)
    ensures HasBit(PutBit(x, k, on), j) <==> if j == k then on else HasBit(x, j)
  {
    var y := PutBit(x, k, on);
    if k == 0 {
      assert y / 2 == x / 2;
    } else {
      assert y % 2 == x % 2 && y / 2 == PutBit(x / 2, k - 1, on);
      if j > 0 {
        PutBitHas(x / 2, k - 1, on, j - 1);
      }
    }
  }

  lemma {:induction false} PutBitByte(x: nat, k: nat, on: bool, width: nat, bound: nat)
    requires k < width && x < bound && bound == Pow2(width)
    ensures PutBit(x, k, on) < bound
  {
    if k > 0 {
      PutBitByte(x / 2, k - 1, on, width - 1, Pow2(width - 1));
    }
  }

  function Pow2(n: nat): nat { if n == 0 then 1 else 2 * Pow2(n - 1) }

  predicate Bit(b: Block, i: nat)
    requires i < BPB
  {
    HasBit(b[i / 8], i % 8)
  }

  function PutByte(x: Byte, k: nat, on: bool): Byte
    requires k < 8
  {
    assert Pow2(8) == 256 by {
      assert Pow2(3) == 8 && Pow2(5) == 4 * Pow2(3) && Pow2(7) == 4 * Pow2(5);
    }
    PutBitByte(x, k, on, 8, 256);
    PutBit(x, k, on)
  }

  function SetBit(b: Block, i: nat, on: bool): Block
    requires i < BPB
  {
    b[i / 8 := PutByte(b[i / 8], i % 8, on)]
  }

  lemma BitSet(b: Block, i: nat, on: bool, j: nat)
    requires i < BPB && j < BPB
    ensures Bit(SetBit(b, i, on), j) <==> if j == i then on else Bit(b, j)
  {
    PutBitHas(b[i / 8], i % 8, on, j % 8);
    if j / 8 == i / 8 && j % 8 == i % 8 {
      assert j == 8 * (i / 8) + i % 8;
    }
  }
}
