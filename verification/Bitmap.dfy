/** The free bitmap: one bit a block, packed eight to a byte and BPB to a bitmap block. */
module Bitmap {
  import opened Blocks

  const BPB := 8 * BSIZE

  function Pow2(w: nat): (r: nat)
    ensures r > 0
  {
    if w == 0 then 1 else 2 * Pow2(w - 1)
  }

  /** Is bit k of x set? */
  predicate Bit(x: nat, k: nat)
  {
    if k == 0 then x % 2 == 1 else Bit(x / 2, k - 1)
  }

  /** x with bit k set or cleared, in w bits. */
  function PutBit(x: nat, k: nat, on: bool, w: nat): (r: nat)
    requires k < w && x < Pow2(w)
    ensures r < Pow2(w)
    decreases k
  {
    if k == 0 then x / 2 * 2 + (if on then 1 else 0)
    else x % 2 + 2 * PutBit(x / 2, k - 1, on, w - 1)
  }

  lemma {:induction false} BitAfterPut(x: nat, k: nat, on: bool, w: nat, j: nat)
    requires k < w && x < Pow2(w)
    ensures Bit(PutBit(x, k, on, w), j) == if j == k then on else Bit(x, j)
    decreases k
  {
    var r := PutBit(x, k, on, w);
    if k > 0 {
      assert r % 2 == x % 2 && r / 2 == PutBit(x / 2, k - 1, on, w - 1);
      if j > 0 {
        BitAfterPut(x / 2, k - 1, on, w - 1, j - 1);
      }
    } else {
      assert r / 2 == x / 2;
    }
  }

  /** Is bit bi of a bitmap block set? */
  predicate TestBit(b: Block, bi: nat)
    requires bi < BPB
  {
    Bit(b[bi / 8], bi % 8)
  }

  lemma {:induction false} BitValue(x: nat, k: nat)
    ensures Bit(x, k) <==> x / Pow2(k) % 2 == 1
    decreases k
  {
    if k > 0 {
      BitValue(x / 2, k - 1);
      DivDiv(x, Pow2(k - 1));
    }
  }

  lemma {:induction false} DivDiv(x: nat, d: nat)
    requires d > 0
    ensures x / 2 / d == x / (2 * d)
  {
    var q, r := x / (2 * d), x % (2 * d);
    assert x == 2 * d * q + r;
    assert x / 2 == d * q + r / 2 && 0 <= r / 2 < d;
    QuotientIs(x / 2, d, q, r / 2);
  }

  lemma {:induction false} QuotientIs(a: nat, d: nat, q: nat, r: nat)
    requires d > 0 && a == d * q + r && r < d
    ensures a / d == q
  {
    var p := a / d;
    assert d * p <= a < d * p + d;
    if p < q {
      Multiples(d, p + 1, q);
    } else if p > q {
      Multiples(d, q + 1, p);
    }
  }

  lemma {:induction false} Multiples(d: nat, x: nat, y: nat)
    requires x <= y
    ensures d * x <= d * y
    decreases y - x
  {
    if x < y {
      Multiples(d, x + 1, y);
      assert d * (x + 1) == d * x + d;
    }
  }

  function SetBit(b: Block, bi: nat, on: bool): (r: Block)
    requires bi < BPB
  {
    EightBits();
    b[bi / 8 := PutBit(b[bi / 8], bi % 8, on, 8)]
  }

  lemma {:induction false} EightBits()
    ensures Pow2(8) == 256
  {
    assert Pow2(4) == 16;
  }

  /** Setting or clearing one bit of a bitmap block changes that bit alone. */
  lemma {:induction false} TestAfterSet(b: Block, bi: nat, on: bool, bj: nat)
    requires bi < BPB && bj < BPB
    ensures TestBit(SetBit(b, bi, on), bj) == if bj == bi then on else TestBit(b, bj)
  {
    EightBits();
    if bj / 8 == bi / 8 {
      BitAfterPut(b[bi / 8], bi % 8, on, 8, bj % 8);
    }
  }

  // ---------------------------------------------------------------- the map of the whole disk

  /** Is block b in use, with the bitmap starting at block bmapstart? */
  predicate InUse(blk: seq<Block>, bmapstart: nat, b: nat)
    requires bmapstart + b / BPB < |blk|
  {
    TestBit(blk[bmapstart + b / BPB], b % BPB)
  }

  /** The bit of block b: bit b % 8 of a byte, eight blocks to a byte and 8192 to a bitmap block. */
  lemma {:induction false} WhichBit(blk: seq<Block>, bmapstart: nat, b: nat)
    requires bmapstart + b / 8192 < |blk|
    ensures InUse(blk, bmapstart, b) <==> blk[bmapstart + b / 8192][b % 8192 / 8] / Pow2(b % 8) % 2 == 1
  {
    hide Bit, Pow2;
    assert b % 8192 % 8 == b % 8 by {
      assert b == 8 * (1024 * (b / 8192)) + b % 8192;
    }
    BitValue(blk[bmapstart + b / 8192][b % 8192 / 8], b % 8);
  }

  function Mark(blk: seq<Block>, bmapstart: nat, b: nat, on: bool): (r: seq<Block>)
    requires bmapstart + b / BPB < |blk|
    ensures |r| == |blk|
  {
    blk[bmapstart + b / BPB := SetBit(blk[bmapstart + b / BPB], b % BPB, on)]
  }

  /** Marking one block changes the state of that block alone. */
  lemma {:induction false} InUseAfterMark(blk: seq<Block>, bmapstart: nat, b: nat, on: bool, c: nat)
    requires bmapstart + b / BPB < |blk| && bmapstart + c / BPB < |blk|
    ensures InUse(Mark(blk, bmapstart, b, on), bmapstart, c) == if c == b then on else InUse(blk, bmapstart, c)
  {
    hide SetBit, TestBit;
    if c / BPB == b / BPB {
      TestAfterSet(blk[bmapstart + b / BPB], b % BPB, on, c % BPB);
    }
  }
}
