/**
  Disk blocks as the kernel sees them: 1024 bytes that are also read and written as 256
  little-endian 32-bit words (the log header, indirect blocks), and the disk as a sequence of
  blocks changed by one atomic block write at a time.
 */
module Blocks {

  const BSIZE := 1024
  const WORDS := 256
  const TWO32 := 0x1_0000_0000

  /** How many buffers the kernel's cache has. */
  const NBUF := 30

  datatype Option<+T> = None | Some(value: T)

  type Byte = x: int | 0 <= x < 256
  type Block = b: seq<Byte> | |b| == BSIZE witness seq(BSIZE, _ => 0)

  /** A block of zero bytes. */
  function ZeroBlock(): (b: Block)
  {
    seq(BSIZE, _ => 0)
  }

  /** The j-th 32-bit word of a block, low byte first. */
  function Word(b: Block, j: nat): (v: int)
    requires j < WORDS
    ensures 0 <= v < TWO32
  {
    var b0: int, b1: int, b2: int, b3: int := b[4 * j], b[4 * j + 1], b[4 * j + 2], b[4 * j + 3];
    b0 + 0x100 * b1 + 0x1_0000 * b2 + 0x100_0000 * b3
  }

  /** The block with its j-th word set to v. */
  function SetWord(b: Block, j: nat, v: int): (r: Block)
    requires j < WORDS
    requires 0 <= v < TWO32
  {
    b[4 * j := v % 0x100]
     [4 * j + 1 := v / 0x100 % 0x100]
     [4 * j + 2 := v / 0x1_0000 % 0x100]
     [4 * j + 3 := v / 0x100_0000]
  }

  lemma {:induction false} SplitWord(v: int)
    requires 0 <= v < TWO32
    ensures v == v % 0x100 + 0x100 * (v / 0x100 % 0x100) + 0x1_0000 * (v / 0x1_0000 % 0x100) + 0x100_0000 * (v / 0x100_0000)
  {
    assert v / 0x1_0000 == v / 0x100 / 0x100;
    assert v / 0x100_0000 == v / 0x1_0000 / 0x100;
  }

  /** Storing a word and reading the words back: the stored one changed, every other one did not. */
  lemma {:induction false} WordAfterSetWord(b: Block, j: nat, v: int, k: nat)
    requires j < WORDS && k < WORDS
    requires 0 <= v < TWO32
    ensures Word(SetWord(b, j, v), k) == if k == j then v else Word(b, k)
  {
    SplitWord(v);
  }

  /** The number that a run of bytes stands for, low byte first. */
  function LittleEndian(s: seq<Byte>): (v: nat)
  {
    if s == [] then 0
    else
      var low: int := s[0];
      low + 0x100 * LittleEndian(s[1..])
  }

  /** Word j is the four bytes from 4j on, */
  lemma {:induction false} WordBytes(b: Block, j: nat)
    requires j < WORDS
    ensures Word(b, j) == LittleEndian(b[4 * j..4 * j + 4])
  {
    var s := b[4 * j..4 * j + 4];
    assert LittleEndian([s[3]]) == s[3] as int;
    assert LittleEndian([s[2], s[3]]) == s[2] as int + 0x100 * s[3] as int;
    assert LittleEndian([s[1], s[2], s[3]]) == s[1] as int + 0x100 * LittleEndian([s[2], s[3]]);
    assert s[1..] == [s[1], s[2], s[3]];
  }

  /** and storing it changes no byte but those. */
  lemma {:induction false} SetWordKeeps(b: Block, j: nat, v: int, k: nat)
    requires j < WORDS && 0 <= v < TWO32 && k < BSIZE && !(4 * j <= k < 4 * j + 4)
    ensures SetWord(b, j, v)[k] == b[k]
  {
  }

  lemma {:induction false} ZeroBlockWords(k: nat)
    requires k < WORDS
    ensures Word(ZeroBlock(), k) == 0
  {
  }

  datatype Write = Write(block: nat, data: Block)

  type Disk = seq<Block>

  predicate Fits(d: Disk, ws: seq<Write>)
  {
    forall i :: 0 <= i < |ws| ==> ws[i].block < |d|
  }

  /** The disk after the block writes ws reached it, in order. */
  function Apply(d: Disk, ws: seq<Write>): (r: Disk)
    requires Fits(d, ws)
    ensures |r| == |d|
    decreases |ws|
  {
    if ws == [] then d
    else
      var w := ws[|ws| - 1];
      Apply(d, ws[..|ws| - 1])[w.block := w.data]
  }

  lemma {:induction false} NoWrites(d: Disk)
    ensures Apply(d, []) == d
  {
  }

  lemma {:induction false} ApplyNext(d: Disk, ws: seq<Write>, k: nat)
    requires k < |ws| && Fits(d, ws[..k]) && ws[k].block < |d|
    ensures Fits(d, ws[..k + 1])
    ensures Apply(d, ws[..k + 1]) == Apply(d, ws[..k])[ws[k].block := ws[k].data]
  {
    assert ws[..k + 1][..k] == ws[..k];
  }

  lemma {:induction false} ApplyConcat(d: Disk, xs: seq<Write>, ys: seq<Write>)
    requires Fits(d, xs) && Fits(d, ys)
    ensures Fits(d, xs + ys)
    ensures Apply(d, xs + ys) == Apply(Apply(d, xs), ys)
    decreases |ys|
  {
    if ys == [] {
      assert xs + ys == xs;
    } else {
      var init := ys[..|ys| - 1];
      ApplyConcat(d, xs, init);
      assert (xs + ys)[..|xs + ys| - 1] == xs + init;
    }
  }

  lemma {:induction false} ApplySnoc(d: Disk, ws: seq<Write>, w: Write)
    requires Fits(d, ws) && w.block < |d|
    ensures Fits(d, ws + [w])
    ensures Apply(d, ws + [w]) == Apply(d, ws)[w.block := w.data]
  {
    assert (ws + [w])[..|ws|] == ws;
  }

  /** A block no write names keeps its contents. */
  lemma {:induction false} ApplyFrame(d: Disk, ws: seq<Write>, b: nat)
    requires Fits(d, ws) && b < |d|
    requires forall i :: 0 <= i < |ws| ==> ws[i].block != b
    ensures Apply(d, ws)[b] == d[b]
    decreases |ws|
  {
    if ws != [] {
      ApplyFrame(d, ws[..|ws| - 1], b);
    }
  }

  lemma {:induction false} SubsetCount<T>(a: set<T>, b: set<T>)
    requires a <= b
    ensures |a| <= |b|
  {
    assert b == a + (b - a);
  }
}
