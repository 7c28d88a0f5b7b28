/**
  The bound on the blocks of one transaction is reached: a full disk but for four blocks, one in
  each of four bitmap blocks' reach, and a write of a whole chunk that needs them all.
 */
module TightBound {
  import opened Blocks
  import opened Bitmap
  import opened Inodes
  import opened FileSystem
  import opened CrashRecovery
  import opened FileWrite

  // ---------------------------------------------------------------- the disk

  /** Boot, super and 31 log blocks, 129 inode blocks, four bitmap blocks, data. */
  const INODESTART := 33
  const BMAPSTART := 162
  const START := 166
  const SIZE := 24746
  const NINODES := 2048

  const SB := Superblock(SIZE, INODESTART, BMAPSTART, START)

  /** Every file has twelve blocks, the last with one byte in use. */
  const FILESIZE := 11 * BSIZE + 1

  /** The free blocks: one in the reach of each bitmap block. */
  function FreeBlock(g: nat): (b: nat)
  {
    START + (BPB + 1) * g
  }

  predicate IsFree(b: nat)
  {
    b >= START && (b - START) % (BPB + 1) == 0
  }

  /** The m-th data block that is not free, and which one a block is. */
  function DataBlock(m: nat): (b: nat)
    ensures b >= START && !IsFree(b) && Index(b) == m && (m < NINODES * NDIRECT ==> b < SIZE)
  {
    START + m + m / BPB + 1
  }

  function Index(b: nat): (m: nat)
    requires b >= START && !IsFree(b)
  {
    (b - START) / (BPB + 1) * BPB + (b - START) % (BPB + 1) - 1
  }

  lemma {:induction false} DataBlockIndex(b: nat)
    requires b >= START && !IsFree(b)
    ensures DataBlock(Index(b)) == b
  {
  }

  /** What is in slot j of inode k. */
  function SlotBlock(k: nat, j: nat): (a: nat)
    requires k < NINODES
    ensures j < NDIRECT ==> START <= a < SIZE && !IsFree(a)
    ensures j >= NDIRECT ==> a == 0
  {
    if j < NDIRECT then DataBlock(12 * k + j) else 0
  }

  function FullInode(k: nat): (ip: Inode)
    requires k < NINODES
    ensures ip.size == FILESIZE && Storable(ip)
    ensures forall j :: 0 <= j <= NDIRECT ==> ip.addrs[j] == SlotBlock(k, j)
  {
    var addrs := seq<nat>(NDIRECT + 1, j requires 0 <= j <= NDIRECT => SlotBlock(k, j));
    Inode(FILESIZE, addrs)
  }

  /** The first n inodes of the g-th inode block. */
  function InodeSlots(g: nat, n: nat): (b: Block)
    requires IPB * g + n <= NINODES && n <= IPB
  {
    if n == 0 then ZeroBlock() else PutInode(InodeSlots(g, n - 1), n - 1, FullInode(IPB * g + n - 1))
  }

  lemma {:induction false} SlotsRead(g: nat, n: nat, k: nat)
    requires IPB * g + n <= NINODES && k < n <= IPB
    ensures GetInode(InodeSlots(g, n), k) == FullInode(IPB * g + k)
  {
    hide GetInode, PutInode, FullInode;
    InodeAfterPut(InodeSlots(g, n - 1), n - 1, FullInode(IPB * g + n - 1), k);
    if k < n - 1 {
      SlotsRead(g, n - 1, k);
    }
  }

  function Filled(x: Byte): (b: Block)
    ensures forall j :: 0 <= j < BSIZE ==> b[j] == x
  {
    seq(BSIZE, _ => x)
  }

  /** Every bit set but the one of the free block. */
  function BitsBlock(g: nat): (b: Block)
  {
    SetBit(Filled(255), FreeBlock(g) % BPB, false)
  }

  function DiskBlock(b: nat): (r: Block)
  {
    if INODESTART <= b < INODESTART + NINODES / IPB then InodeSlots(b - INODESTART, IPB)
    else if BMAPSTART <= b < START then BitsBlock(b - BMAPSTART)
    else if b >= START && !IsFree(b) then Filled(1)
    else Filled(0)
  }

  function FullDisk(): (blk: seq<Block>)
    ensures |blk| == SIZE && forall b :: 0 <= b < SIZE ==> blk[b] == DiskBlock(b)
  {
    seq(SIZE, b requires 0 <= b < SIZE => DiskBlock(b))
  }

  /** The blocks that belong to a slot, of the first n that are not free. */
  function OwnersUpTo(n: nat): (o: map<nat, Place>)
    ensures forall b :: b in o <==> b >= START && !IsFree(b) && Index(b) < n
    ensures forall b :: b in o ==> o[b] == Place(Index(b) / NDIRECT, Index(b) % NDIRECT)
  {
    if n == 0 then map[]
    else
      DataBlockOf(n - 1);
      OwnersUpTo(n - 1)[DataBlock(n - 1) := Place((n - 1) / NDIRECT, (n - 1) % NDIRECT)]
  }

  lemma {:induction false} DataBlockOf(m: nat)
    ensures forall b :: b >= START && !IsFree(b) && Index(b) == m <==> b == DataBlock(m)
  {
    forall b | b >= START && !IsFree(b)
      ensures Index(b) == m ==> b == DataBlock(m)
    {
      DataBlockIndex(b);
    }
  }

  function Owners(): (o: map<nat, Place>)
  {
    OwnersUpTo(NINODES * NDIRECT)
  }

  // ---------------------------------------------------------------- it is in order

  lemma {:induction false} SuperblockFine(blk: seq<Block>)
    requires |blk| == SIZE
    ensures SuperblockOk(SB, |blk|) && InodeBlock(SB, NINODES) < BMAPSTART
  {
  }

  lemma {:induction false} AllOnes(x: nat, w: nat, k: nat)
    requires x == Pow2(w) - 1 && k < w
    ensures Bit(x, k)
  {
    assert x == 2 * (Pow2(w - 1) - 1) + 1;
    if k > 0 {
      AllOnes(x / 2, w - 1, k - 1);
    }
  }

  lemma {:induction false} FullUsed(b: nat)
    requires b < SIZE
    ensures |FullDisk()| == SIZE && SuperblockOk(SB, SIZE) && (Used(FullDisk(), SB, b) <==> !IsFree(b))
  {
    hide SetBit, TestBit;
    var g := b / BPB;
    FreeInReach(b);
    TestAfterSet(Filled(255), FreeBlock(g) % BPB, false, b % BPB);
    assert TestBit(Filled(255), b % BPB) by {
      OnesSet(b % BPB);
    }
  }

  lemma {:induction false} OnesSet(bi: nat)
    requires bi < BPB
    ensures TestBit(Filled(255), bi)
  {
    EightBits();
    AllOnes(255, 8, bi % 8);
  }

  lemma {:induction false} FreeInReach(b: nat)
    requires b < SIZE
    ensures b / BPB < 4 && BMAPSTART + b / BPB < SIZE
    ensures FreeBlock(b / BPB) % BPB == b % BPB <==> IsFree(b)
  {
  }

  lemma {:induction false} FullInodes(k: nat)
    requires k < NINODES
    ensures |FullDisk()| == SIZE && SuperblockOk(SB, SIZE) && InodeBlock(SB, NINODES) < BMAPSTART
    ensures InodesOn(FullDisk(), SB, NINODES)[k] == FullInode(k)
  {
    hide GetInode, InodeSlots, FullInode;
    SlotsRead(k / IPB, IPB, k % IPB);
    assert IPB * (k / IPB) + k % IPB == k;
    assert Dinode(FullDisk(), SB, k) == FullInode(k);
  }

  lemma {:induction false} FullAddr(inodes: seq<Inode>, k: nat, s: nat)
    requires |inodes| == NINODES && k < NINODES && s < NSLOT && inodes[k] == FullInode(k)
    ensures Addr(FullDisk(), inodes[k], s) == SlotBlock(k, s)
  {
    hide DataBlock;
  }

  lemma {:induction false} SlotOwned(k: nat, s: nat)
    requires k < NINODES && s < NDIRECT
    ensures SlotBlock(k, s) in Owners() && Owners()[SlotBlock(k, s)] == Place(k, s)
  {
    assert (12 * k + s) / 12 == k && (12 * k + s) % 12 == s;
  }

  lemma {:induction false} OwnedSlot(b: nat)
    requires b in Owners()
    ensures START <= b < SIZE
    ensures Owners()[b].inum < NINODES && Owners()[b].s < NDIRECT && b == SlotBlock(Owners()[b].inum, Owners()[b].s)
  {
    DataBlockIndex(b);
    var m := Index(b);
    assert m == 12 * (m / 12) + m % 12;
  }

  lemma {:induction false} FullOwns(inodes: seq<Inode>)
    requires |inodes| == NINODES && forall k :: 0 <= k < NINODES ==> inodes[k] == FullInode(k)
    ensures Owns(FullDisk(), SB, inodes, Owners())
  {
    hide Addr, SlotBlock, FullInode, FullDisk, Owners;
    var blk, owner := FullDisk(), Owners();
    forall k, s | 0 <= k < NINODES && 0 <= s < NSLOT
      ensures Addr(blk, inodes[k], s) == SlotBlock(k, s)
      ensures s < NDIRECT ==> SlotBlock(k, s) in owner && owner[SlotBlock(k, s)] == Place(k, s)
    {
      FullAddr(inodes, k, s);
      if s < NDIRECT {
        SlotOwned(k, s);
      }
    }
    forall b | b in owner
      ensures START <= b < SIZE && owner[b].inum < NINODES && owner[b].s < NDIRECT && Addr(blk, inodes[owner[b].inum], owner[b].s) == b
    {
      OwnedSlot(b);
    }
  }

  lemma {:induction false} FullNoHoles(inodes: seq<Inode>)
    requires |inodes| == NINODES && forall k :: 0 <= k < NINODES ==> inodes[k] == FullInode(k)
    ensures AllNoHoles(FullDisk(), inodes)
  {
    hide Addr, SlotBlock, FullInode, FullDisk;
    forall k | 0 <= k < NINODES
      ensures NoHoles(FullDisk(), inodes[k])
    {
      forall bn | 0 <= bn < MAXFILE && bn * BSIZE < FILESIZE
        ensures Addr(FullDisk(), inodes[k], FileSlot(bn)) != 0
      {
        FullAddr(inodes, k, FileSlot(bn));
      }
    }
  }

  lemma {:induction false} FullBits()
    ensures |FullDisk()| == SIZE && SuperblockOk(SB, SIZE) && Bits(FullDisk(), SB, Owners(), {})
  {
    hide Used, IsFree, FullDisk;
    forall b | 0 <= b < SIZE
      ensures Used(FullDisk(), SB, b) <==> b < START || b in Owners()
    {
      FullUsed(b);
      InTheMap(b);
    }
  }

  lemma {:induction false} InTheMap(b: nat)
    requires b < SIZE
    ensures !IsFree(b) <==> b < START || b in Owners()
  {
  }

  /** The disk can be mounted. */
  lemma {:induction false} FullFine()
    ensures |FullDisk()| == SIZE && SuperblockOk(SB, SIZE) && InodeBlock(SB, NINODES) < BMAPSTART
    ensures
      var inodes := InodesOn(FullDisk(), SB, NINODES);
      Owns(FullDisk(), SB, inodes, Owners()) && Bits(FullDisk(), SB, Owners(), {}) && AllNoHoles(FullDisk(), inodes)
  {
    hide Owns, Bits, AllNoHoles, FullDisk, InodesOn, FullInode, Owners;
    FullBits();
    FullInodes(0);
    forall k | 0 <= k < NINODES
      ensures InodesOn(FullDisk(), SB, NINODES)[k] == FullInode(k)
    {
      FullInodes(k);
    }
    FullOwns(InodesOn(FullDisk(), SB, NINODES));
    FullNoHoles(InodesOn(FullDisk(), SB, NINODES));
  }

  // ---------------------------------------------------------------- after the write

  function Before(): (s: State)
    ensures SuperblockOk(SB, SIZE) && |s.blk| == SIZE && |s.inodes| == NINODES && s.logged == {} && s.owner == Owners()
    ensures s.blk == FullDisk() && InodeBlock(SB, NINODES) < BMAPSTART && s.inodes == InodesOn(s.blk, SB, NINODES)
    ensures forall k :: 0 <= k < NINODES ==> s.inodes[k] == FullInode(k)
  {
    assert forall k :: 0 <= k < NINODES ==> InodesOn(FullDisk(), SB, NINODES)[k] == FullInode(k) by {
      forall k | 0 <= k < NINODES
        ensures InodesOn(FullDisk(), SB, NINODES)[k] == FullInode(k)
      {
        FullInodes(k);
      }
    }
    State(FullDisk(), InodesOn(FullDisk(), SB, NINODES), Owners(), {})
  }

  /** What writei promises when it stores the first r of 3072 bytes, all of them 2, at the end of file 0. */
  ghost predicate After(s: State, r: nat)
  {
    && SuperblockOk(SB, |s.blk|) && |s.blk| == SIZE && |s.inodes| == NINODES
    && Owns(s.blk, SB, s.inodes, s.owner) && Bits(s.blk, SB, s.owner, {}) && AllNoHoles(s.blk, s.inodes)
    && r <= MAXCHUNK
    && Grew(s, r)
    && (r < MAXCHUNK ==> (r == 0 || (FILESIZE + r) % BSIZE == 0) && forall b :: 0 <= b < SIZE ==> Used(s.blk, SB, b))
    && Tracked(INODESTART, Before().blk, {}, s.blk, s.logged)
    && OthersKept(0, Before().blk, Before().inodes, Owners(), s.blk, s.inodes, s.owner)
    && DinodesKept(SB, Before().blk, s.blk, s.inodes, 0)
    && |s.logged| <= LogBound(FILESIZE, r)
  }

  ghost predicate Grew(s: State, r: nat)
    requires |s.inodes| == NINODES
  {
    && s.inodes[0].size == FILESIZE + r <= MAXFILE * BSIZE
    && forall p :: FILESIZE <= p < FILESIZE + r ==> ByteAt(s.blk, s.inodes[0], p) == 2
  }

  /** A data block of file 0 is now recorded for the slot it is in. */
  lemma {:induction false} SlotNow(s: State, r: nat, t: nat)
    requires After(s, r) && t < NSLOT && Addr(s.blk, s.inodes[0], t) != 0
    ensures START <= Addr(s.blk, s.inodes[0], t) < SIZE
    ensures Addr(s.blk, s.inodes[0], t) in s.owner && s.owner[Addr(s.blk, s.inodes[0], t)] == Place(0, t)
  {
    hide Addr, Bits, AllNoHoles, Grew, Tracked, OthersKept, DinodesKept, Used, LogBound;
  }

  /** A block that holds a new byte changed. */
  lemma {:induction false} StoredChanges(s: State, r: nat, bn: nat, p: nat)
    requires After(s, r) && FILESIZE <= p < FILESIZE + r && bn == p / BSIZE
    ensures bn < MAXFILE && START <= Addr(s.blk, s.inodes[0], FileSlot(bn)) < SIZE && Addr(s.blk, s.inodes[0], FileSlot(bn)) in s.logged
    ensures s.blk[Addr(s.blk, s.inodes[0], FileSlot(bn))] != Before().blk[Addr(s.blk, s.inodes[0], FileSlot(bn))]
  {
    hide Addr, Bits, Owns, OthersKept, DinodesKept, Used, LogBound;
    assert NoHoles(s.blk, s.inodes[0]);
    assert bn * BSIZE <= p;
    SlotNow(s, r, FileSlot(bn));
    var a := Addr(s.blk, s.inodes[0], FileSlot(bn));
    assert ByteAt(s.blk, s.inodes[0], p) == 2;
    assert s.blk[a][p % BSIZE] == 2;
    assert Before().blk[a] == DiskBlock(a);
  }

  lemma {:induction false} UsedIn(blk: seq<Block>, b: nat)
    requires |blk| == SIZE && b < SIZE
    ensures SuperblockOk(SB, |blk|) && BMAPSTART + b / BPB < START && Used(blk, SB, b) == TestBit(blk[BMAPSTART + b / BPB], b % BPB)
  {
    hide TestBit;
  }

  /** A bitmap block of which a bit is newly set changed. */
  lemma {:induction false} BitmapChanges(s: State, r: nat, g: nat)
    requires After(s, r) && g < 4 && FreeBlock(g) < SIZE && Used(s.blk, SB, FreeBlock(g))
    ensures BMAPSTART + g in s.logged
  {
    hide Addr, Bits, Owns, OthersKept, DinodesKept, LogBound, AllNoHoles, Grew, TestBit, Used, FullDisk, SuperblockOk;
    FreeBlocks(g);
    FullUsed(FreeBlock(g));
    UsedIn(s.blk, FreeBlock(g));
    UsedIn(Before().blk, FreeBlock(g));
  }

  lemma {:induction false} FreeBlocks(g: nat)
    requires g < 4
    ensures FreeBlock(g) < SIZE && IsFree(FreeBlock(g)) && FreeBlock(g) / BPB == g
  {
    assert g == 0 || g == 1 || g == 2 || g == 3;
  }

  lemma {:induction false} InodeChanges(s: State, r: nat)
    requires After(s, r) && r > 0
    ensures INODESTART in s.logged
  {
    hide Addr, Bits, Owns, OthersKept, LogBound, AllNoHoles, Used, GetInode, FullInode;
    assert Dinode(s.blk, SB, 0) == s.inodes[0] && Dinode(Before().blk, SB, 0) == Before().inodes[0];
  }

  /** The indirect block changed: its first entry was no block address before. */
  lemma {:induction false} IndirectChanges(s: State, r: nat)
    requires After(s, r) && Addr(s.blk, s.inodes[0], NDIRECT + 1) != 0
    ensures START <= Addr(s.blk, s.inodes[0], NDIRECT) < SIZE && Addr(s.blk, s.inodes[0], NDIRECT) in s.logged
  {
    hide Bits, Owns, OthersKept, DinodesKept, Used, LogBound, AllNoHoles, Grew, Word;
    var ind, a := s.inodes[0].addrs[NDIRECT], Addr(s.blk, s.inodes[0], NDIRECT + 1);
    assert ind == Addr(s.blk, s.inodes[0], NDIRECT) != 0 && a == Word(s.blk[ind], 0);
    SlotNow(s, r, NDIRECT);
    SlotNow(s, r, NDIRECT + 1);
    FilledWord(0);
    FilledWord(1);
    assert Before().blk[ind] == DiskBlock(ind);
  }

  lemma {:induction false} FilledWord(x: Byte)
    ensures Word(Filled(x), 0) == 0x101_0101 * x
  {
  }

  // ---------------------------------------------------------------- the four free blocks are taken

  /** The blocks in the first n slots. */
  function InSlots(blk: seq<Block>, ip: Inode, n: nat): (u: set<nat>)
    requires n <= NSLOT
    ensures |u| <= n && forall t :: 0 <= t < n ==> Addr(blk, ip, t) in u
    ensures forall a :: a in u ==> exists t :: 0 <= t < n && Addr(blk, ip, t) == a
  {
    if n == 0 then {}
    else
      UnionCount(InSlots(blk, ip, n - 1), {Addr(blk, ip, n - 1)});
      InSlots(blk, ip, n - 1) + {Addr(blk, ip, n - 1)}
  }

  lemma {:induction false} InSlotsCount(s: State, r: nat, n: nat)
    requires After(s, r) && |s.inodes| > 0 && n <= NSLOT && forall t :: 0 <= t < n ==> Addr(s.blk, s.inodes[0], t) != 0
    ensures |InSlots(s.blk, s.inodes[0], n)| == n
  {
    hide After, Addr;
    if n > 0 {
      InSlotsCount(s, r, n - 1);
      var a := Addr(s.blk, s.inodes[0], n - 1);
      forall t | 0 <= t < n - 1
        ensures Addr(s.blk, s.inodes[0], t) != a
      {
        SlotNow(s, r, t);
        SlotNow(s, r, n - 1);
      }
    }
  }

  function FreeSet(): (u: set<nat>)
    ensures |u| <= 4 && forall g :: 0 <= g < 4 ==> FreeBlock(g) in u
  {
    {FreeBlock(0), FreeBlock(1), FreeBlock(2), FreeBlock(3)}
  }

  /** File 0 has only its old blocks and blocks that were free. */
  lemma {:induction false} OldOrFree(s: State, r: nat, t: nat)
    requires After(s, r) && t < NSLOT && Addr(s.blk, s.inodes[0], t) != 0
    ensures Addr(s.blk, s.inodes[0], t) in InSlots(Before().blk, Before().inodes[0], NDIRECT) + FreeSet()
  {
    hide Addr, Bits, Owns, DinodesKept, Used, LogBound, AllNoHoles, Grew, Tracked, Owners, SlotBlock, InSlots, IsFree;
    SlotNow(s, r, t);
    var a := Addr(s.blk, s.inodes[0], t);
    if IsFree(a) {
      WhichFree(a);
    } else {
      InTheMap(a);
      OwnedSlot(a);
      FullAddr(Before().inodes, 0, Owners()[a].s);
    }
  }

  lemma {:induction false} WhichFree(a: nat)
    requires a < SIZE && IsFree(a)
    ensures a in FreeSet()
  {
    var g := (a - START) / (BPB + 1);
    assert g < 4 && a == FreeBlock(g);
    assert g == 0 || g == 1 || g == 2 || g == 3;
  }

  lemma {:induction false} SameSize(a: set<nat>, u: set<nat>)
    requires a <= u && |u| <= |a|
    ensures u == a
  {
    assert |u| == |a| + |u - a| by {
      assert u == a + (u - a);
    }
  }

  /** With sixteen slots in use, it has all of them. */
  lemma {:induction false} AllTaken(s: State, r: nat)
    requires After(s, r) && forall t :: 0 <= t < 16 ==> Addr(s.blk, s.inodes[0], t) != 0
    ensures forall g :: 0 <= g < 4 ==> FreeBlock(g) < SIZE && Used(s.blk, SB, FreeBlock(g))
  {
    hide Addr, InSlots, Owns, DinodesKept, Used, LogBound, AllNoHoles, Grew, Tracked, OthersKept, FreeSet, Before, FreeBlock;
    var a, u := InSlots(s.blk, s.inodes[0], 16), InSlots(Before().blk, Before().inodes[0], NDIRECT) + FreeSet();
    InSlotsCount(s, r, 16);
    UnionCount(InSlots(Before().blk, Before().inodes[0], NDIRECT), FreeSet());
    forall b | b in a
      ensures b in u
    {
      var t :| 0 <= t < 16 && Addr(s.blk, s.inodes[0], t) == b;
      OldOrFree(s, r, t);
    }
    SameSize(a, u);
    forall g | 0 <= g < 4
      ensures FreeBlock(g) < SIZE && Used(s.blk, SB, FreeBlock(g))
    {
      FreeBlocks(g);
      var t :| 0 <= t < 16 && Addr(s.blk, s.inodes[0], t) == FreeBlock(g);
      SlotNow(s, r, t);
    }
  }

  /** A file that reaches past fourteen blocks has sixteen slots in use. */
  lemma {:induction false} SlotsFilled(blk: seq<Block>, ip: Inode)
    requires NoHoles(blk, ip) && ip.size > 14 * BSIZE
    ensures forall t :: 0 <= t < 16 ==> Addr(blk, ip, t) != 0
  {
    hide Word;
    forall t | 0 <= t < 16 && t != NDIRECT
      ensures Addr(blk, ip, t) != 0
    {
      var bn := if t < NDIRECT then t else t - 1;
      assert FileSlot(bn) == t && bn * BSIZE < ip.size;
    }
    assert Addr(blk, ip, NDIRECT + 1) != 0;
  }

  // ---------------------------------------------------------------- counting what was logged

  /** The bitmap blocks, logged since every free block is taken. */
  lemma {:induction false} BitmapsLogged(s: State, r: nat)
    requires After(s, r) && forall g :: 0 <= g < 4 ==> FreeBlock(g) < SIZE && Used(s.blk, SB, FreeBlock(g))
    ensures {BMAPSTART, BMAPSTART + 1, BMAPSTART + 2, BMAPSTART + 3} <= s.logged
  {
    hide After, Used;
    BitmapChanges(s, r, 0);
    BitmapChanges(s, r, 1);
    BitmapChanges(s, r, 2);
    BitmapChanges(s, r, 3);
  }

  /** A write that stops short finds all four free blocks taken. */
  lemma {:induction false} ShortBitmaps(s: State, r: nat)
    requires After(s, r) && r < MAXCHUNK
    ensures {BMAPSTART, BMAPSTART + 1, BMAPSTART + 2, BMAPSTART + 3} <= s.logged && |s.logged| <= LogBound(FILESIZE, r)
    ensures (r == 0 || (FILESIZE + r) % BSIZE == 0) && |s.inodes| == NINODES
  {
    hide Bits, Owns, DinodesKept, Tracked, OthersKept, AllNoHoles, Grew, Used, LogBound, Addr;
    forall g | 0 <= g < 4
      ensures FreeBlock(g) < SIZE && Used(s.blk, SB, FreeBlock(g))
    {
      FreeBlocks(g);
    }
    BitmapsLogged(s, r);
  }

  /** Different slots of file 0 hold different data blocks. */
  lemma {:induction false} Apart(s: State, r: nat, t: nat, u: nat)
    requires After(s, r) && |s.inodes| > 0 && t < NSLOT && u < NSLOT && t != u && Addr(s.blk, s.inodes[0], t) >= START && Addr(s.blk, s.inodes[0], u) >= START
    ensures Addr(s.blk, s.inodes[0], t) != Addr(s.blk, s.inodes[0], u)
  {
    hide After, Addr;
    SlotNow(s, r, t);
    SlotNow(s, r, u);
  }

  /** A write that stops short would have logged more than it may. */
  lemma {:induction false} NotShort(s: State, r: nat)
    requires After(s, r) && r <= MAXCHUNK
    ensures r == MAXCHUNK
  {
    hide After, LogBound, Addr;
    if r < MAXCHUNK {
      ShortBitmaps(s, r);
      ShortBound(r);
      Bitmaps(s.logged);
      if r > 0 {
        InodeChanges(s, r);
      }
      if r > BSIZE {
        StoredChanges(s, r, 11, FILESIZE);
        StoredChanges(s, r, 12, 12 * BSIZE);
        Apart(s, r, 11, 13);
        TwoMore(s.logged, Addr(s.blk, s.inodes[0], 11), Addr(s.blk, s.inodes[0], 13));
      }
      if r > 2 * BSIZE {
        ShortByOne(s, r);
      }
      assert false;
    }
  }

  lemma {:induction false} ShortByOne(s: State, r: nat)
    requires After(s, r) && |s.inodes| > 0 && r <= MAXCHUNK && FILESIZE + r > 13 * BSIZE && INODESTART in s.logged
    requires {BMAPSTART, BMAPSTART + 1, BMAPSTART + 2, BMAPSTART + 3} <= s.logged
    ensures |s.logged| >= 9
  {
    hide After, Addr;
    StoredChanges(s, r, 11, FILESIZE);
    StoredChanges(s, r, 12, 12 * BSIZE);
    StoredChanges(s, r, 13, 13 * BSIZE);
    IndirectChanges(s, r);
    forall t, u | 11 <= t < u < 15
      ensures Addr(s.blk, s.inodes[0], t) != Addr(s.blk, s.inodes[0], u)
    {
      Apart(s, r, t, u);
    }
    FourMore(s.logged, Addr(s.blk, s.inodes[0], 11), Addr(s.blk, s.inodes[0], 12), Addr(s.blk, s.inodes[0], 13), Addr(s.blk, s.inodes[0], 14));
  }

  lemma {:induction false} ShortBound(r: nat)
    requires r < MAXCHUNK && (r == 0 || (FILESIZE + r) % BSIZE == 0)
    ensures r == 0 ==> LogBound(FILESIZE, r) == 3
    ensures 0 < r <= BSIZE ==> LogBound(FILESIZE, r) == 4
    ensures BSIZE < r <= 2 * BSIZE ==> LogBound(FILESIZE, r) == 6 && FILESIZE + r > 12 * BSIZE
    ensures 2 * BSIZE < r ==> LogBound(FILESIZE, r) == 8 && FILESIZE + r > 13 * BSIZE
  {
    if r > 0 {
      assert r == BSIZE - 1 || r == 2 * BSIZE - 1 || r == 3 * BSIZE - 1;
    }
  }

  /** The four bitmap blocks, the inode block, four data blocks and the indirect block. */
  lemma {:induction false} TenLogged(s: State)
    requires After(s, MAXCHUNK)
    ensures |s.logged| == MAXOPBLOCKS
  {
    hide After, Used, LogBound, Addr, NoHoles;
    var r := MAXCHUNK;
    WholeChunk(s);
    SlotsFilled(s.blk, s.inodes[0]);
    AllTaken(s, r);
    BitmapsLogged(s, r);
    InodeChanges(s, r);
    StoredChanges(s, r, 11, FILESIZE);
    StoredChanges(s, r, 12, 12 * BSIZE);
    StoredChanges(s, r, 13, 13 * BSIZE);
    StoredChanges(s, r, 14, 14 * BSIZE);
    IndirectChanges(s, r);
    forall t, u | 11 <= t < u < 16
      ensures Addr(s.blk, s.inodes[0], t) != Addr(s.blk, s.inodes[0], u)
    {
      Apart(s, r, t, u);
    }
    FiveMore(s.logged, Addr(s.blk, s.inodes[0], 11), Addr(s.blk, s.inodes[0], 12), Addr(s.blk, s.inodes[0], 13),
             Addr(s.blk, s.inodes[0], 14), Addr(s.blk, s.inodes[0], 15));
  }

  lemma {:induction false} WholeChunk(s: State)
    requires After(s, MAXCHUNK)
    ensures |s.inodes| == NINODES && NoHoles(s.blk, s.inodes[0]) && s.inodes[0].size > 14 * BSIZE && |s.logged| <= MAXOPBLOCKS
  {
    hide Bits, Owns, DinodesKept, Tracked, OthersKept, Used, LogBound, Addr, ByteAt;
    ChunkBound();
  }

  lemma {:induction false} ChunkBound()
    ensures LogBound(FILESIZE, MAXCHUNK) == MAXOPBLOCKS
  {
    assert BlocksTouched(FILESIZE, MAXCHUNK) == 4;
  }

  lemma {:induction false} Bitmaps(l: set<nat>)
    requires {BMAPSTART, BMAPSTART + 1, BMAPSTART + 2, BMAPSTART + 3} <= l
    ensures |l| >= 4 && (INODESTART in l ==> |l| >= 5)
  {
    var x := {BMAPSTART, BMAPSTART + 1, BMAPSTART + 2, BMAPSTART + 3};
    SubsetCount(x, l);
    if INODESTART in l {
      SubsetCount(x + {INODESTART}, l);
    }
  }

  lemma {:induction false} OneMore(l: set<nat>, a: nat, n: nat)
    requires a in l && |l - {a}| >= n
    ensures |l| >= n + 1
  {
  }

  lemma {:induction false} TwoMore(l: set<nat>, a: nat, b: nat)
    requires {BMAPSTART, BMAPSTART + 1, BMAPSTART + 2, BMAPSTART + 3} <= l && INODESTART in l
    requires a in l && b in l && a >= START && b >= START && a != b
    ensures |l| >= 7
  {
    Bitmaps(l - {a} - {b});
    OneMore(l - {a}, b, 5);
    OneMore(l, a, 6);
  }

  lemma {:induction false} FourMore(l: set<nat>, a: nat, b: nat, c: nat, d: nat)
    requires {BMAPSTART, BMAPSTART + 1, BMAPSTART + 2, BMAPSTART + 3} <= l && INODESTART in l
    requires a in l && b in l && c in l && d in l && a >= START && b >= START && c >= START && d >= START
    requires a != b && a != c && a != d && b != c && b != d && c != d
    ensures |l| >= 9
  {
    TwoMore(l - {a} - {b}, c, d);
    OneMore(l - {a}, b, 7);
    OneMore(l, a, 8);
  }

  lemma {:induction false} FiveMore(l: set<nat>, a: nat, b: nat, c: nat, d: nat, e: nat)
    requires {BMAPSTART, BMAPSTART + 1, BMAPSTART + 2, BMAPSTART + 3} <= l && INODESTART in l
    requires a in l && b in l && c in l && d in l && e in l && a >= START && b >= START && c >= START && d >= START && e >= START
    requires a != b && a != c && a != d && a != e && b != c && b != d && b != e && c != d && c != e && d != e
    ensures |l| >= 10
  {
    FourMore(l - {a}, b, c, d, e);
    OneMore(l, a, 9);
  }

  // ---------------------------------------------------------------- the write

  /**
    One transaction that logs exactly MAXOPBLOCKS blocks: writei of a chunk of filewrite's largest
    size, starting unaligned in the last direct block of a file without an indirect block, when
    each of the four blocks it needs is found in the reach of another bitmap block.
   */
  method BoundIsReached() returns (fs: FileSystem, r: int)
    ensures fresh(fs) && fs.Valid() && r == MAXCHUNK && |fs.logged| == MAXOPBLOCKS
  {
    hide Owns, Bits, AllNoHoles, FullDisk, InodesOn, FullInode, Owners, Contents, Overwrite, Tracked, OthersKept, DinodesKept, Used, LogBound, Addr, Dinode;
    FullFine();
    fs := new FileSystem(SB, FullDisk(), NINODES, Owners());
    ghost var s0 := Before();
    SameInodes(fs.inodes);
    var src := seq<Byte>(MAXCHUNK, _ => 2);
    r := fs.Writei(0, FILESIZE, src);
    Stores(fs.Now(), Contents(s0.blk, s0.inodes[0]), src, r);
    assert After(fs.Now(), r);
    NotShort(fs.Now(), r);
    TenLogged(fs.Now());
  }

  lemma {:induction false} SameInodes(inodes: seq<Inode>)
    requires |inodes| == NINODES && Synced(SB, Before().blk, inodes)
    ensures inodes == Before().inodes
  {
    hide Dinode;
    assert Synced(SB, Before().blk, Before().inodes);
  }

  /** The new bytes of a file that was written to at its end. */
  lemma {:induction false} Stores(s: State, c0: seq<Byte>, src: seq<Byte>, r: nat)
    requires |s.inodes| == NINODES && r <= |src| && (forall j :: 0 <= j < |src| ==> src[j] == 2) && |c0| == FILESIZE
    requires s.inodes[0].size <= MAXFILE * BSIZE && Contents(s.blk, s.inodes[0]) == Overwrite(c0, FILESIZE, src[..r])
    ensures Grew(s, r)
  {
    hide Contents, Overwrite, Grew;
    AtEnd(c0, src[..r]);
    StoredAtEnd(s, c0, src[..r], r);
  }

  lemma {:induction false} AtEnd(c: seq<Byte>, bytes: seq<Byte>)
    requires |c| == FILESIZE
    ensures Overwrite(c, FILESIZE, bytes) == c + bytes
  {
  }

  lemma {:induction false} StoredAtEnd(s: State, c0: seq<Byte>, bytes: seq<Byte>, r: nat)
    requires |s.inodes| == NINODES && |c0| == FILESIZE && |bytes| == r && s.inodes[0].size <= MAXFILE * BSIZE
    requires Contents(s.blk, s.inodes[0]) == c0 + bytes && forall j :: 0 <= j < r ==> bytes[j] == 2
    ensures Grew(s, r)
  {
    hide ByteAt;
    var c := Contents(s.blk, s.inodes[0]);
    assert |c| == FILESIZE + r;
    forall p | FILESIZE <= p < FILESIZE + r
      ensures ByteAt(s.blk, s.inodes[0], p) == 2
    {
      assert c[p] == bytes[p - FILESIZE];
    }
  }
}
