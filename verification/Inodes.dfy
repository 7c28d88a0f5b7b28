/**
  Which disk block belongs to which file: the thirteen block addresses of an inode, the last of
  them naming an indirect block of 256 more, the free bitmap, and the bytes of a file. This
  module holds the pure facts; FileSystem holds the operations.
 */
module Inodes {
  import opened Blocks
  import opened Bitmap

  const NDIRECT := 12
  const NINDIRECT := 256
  const MAXFILE := NDIRECT + NINDIRECT
  const NSLOT := MAXFILE + 1
  const IPB := 16

  type Addrs = a: seq<nat> | |a| == NDIRECT + 1 witness seq(NDIRECT + 1, _ => 0)

  datatype Inode = Inode(size: nat, addrs: Addrs)

  /** Block numbers below datastart are boot, super, log, inode and bitmap blocks. */
  datatype Superblock = Superblock(size: nat, inodestart: nat, bmapstart: nat, datastart: nat)

  predicate SuperblockOk(sb: Superblock, n: nat)
  {
    && sb.inodestart < sb.bmapstart
    && sb.bmapstart + sb.size / BPB < sb.datastart <= sb.size == n < TWO32
  }

  /**
    The block address in slot s: the direct ones, the indirect block, then the entries of the
    indirect block. Zero means none.
   */
  function Addr(blk: seq<Block>, ip: Inode, s: nat): (a: nat)
    requires s < NSLOT
  {
    if s <= NDIRECT then ip.addrs[s]
    else
      var ind := ip.addrs[NDIRECT];
      if ind == 0 || ind >= |blk| then 0 else Word(blk[ind], s - NDIRECT - 1)
  }

  /** The slot of the bn-th data block of a file. */
  function FileSlot(bn: nat): (s: nat)
    requires bn < MAXFILE
    ensures s < NSLOT && s != NDIRECT
  {
    if bn < NDIRECT then bn else bn + 1
  }

  // ---------------------------------------------------------------- ownership

  /** Slot s of inode inum. */
  datatype Place = Place(inum: nat, s: nat)

  /** Every block address in a slot is recorded for that slot, except in slots lo to hi of inode i. */
  ghost predicate Recorded(blk: seq<Block>, inodes: seq<Inode>, owner: map<nat, Place>, i: nat, lo: nat, hi: nat)
  {
    forall k, s ::
      0 <= k < |inodes| && 0 <= s < NSLOT && !(k == i && lo <= s < hi) && Addr(blk, inodes[k], s) != 0 ==>
        Addr(blk, inodes[k], s) in owner && owner[Addr(blk, inodes[k], s)] == Place(k, s)
  }

  /** Every recorded block is a data block that sits in the slot it is recorded for. */
  ghost predicate Placed(blk: seq<Block>, sb: Superblock, inodes: seq<Inode>, owner: map<nat, Place>)
  {
    forall b :: b in owner ==>
      && sb.datastart <= b < sb.size
      && owner[b].inum < |inodes| && owner[b].s < NSLOT
      && Addr(blk, inodes[owner[b].inum], owner[b].s) == b
  }

  ghost predicate Owns(blk: seq<Block>, sb: Superblock, inodes: seq<Inode>, owner: map<nat, Place>)
  {
    Recorded(blk, inodes, owner, 0, 0, 0) && Placed(blk, sb, inodes, owner)
  }

  /** Block b's bit in the bitmap. */
  predicate Used(blk: seq<Block>, sb: Superblock, b: nat)
    requires SuperblockOk(sb, |blk|) && b < sb.size
  {
    InUse(blk, sb.bmapstart, b)
  }

  function Marked(blk: seq<Block>, sb: Superblock, b: nat, on: bool): (r: seq<Block>)
    requires SuperblockOk(sb, |blk|) && b < sb.size
    ensures |r| == |blk|
  {
    Mark(blk, sb.bmapstart, b, on)
  }

  lemma {:induction false} UsedAfterMarked(blk: seq<Block>, sb: Superblock, b: nat, on: bool, c: nat)
    requires SuperblockOk(sb, |blk|) && b < sb.size && c < sb.size
    ensures Used(Marked(blk, sb, b, on), sb, c) == if c == b then on else Used(blk, sb, c)
  {
    InUseAfterMark(blk, sb.bmapstart, b, on, c);
  }

  lemma {:induction false} MarkedKeepsData(blk: seq<Block>, sb: Superblock, b: nat, on: bool, c: nat)
    requires SuperblockOk(sb, |blk|) && b < sb.size && sb.datastart <= c < |blk|
    ensures Marked(blk, sb, b, on)[c] == blk[c]
  {
    assert sb.bmapstart + b / BPB < sb.datastart;
  }

  /** Writing a data block does not change the bitmap. */
  lemma {:induction false} UsedAfterData(blk: seq<Block>, sb: Superblock, b: nat, data: Block, c: nat)
    requires SuperblockOk(sb, |blk|) && sb.datastart <= b < |blk| && c < sb.size
    ensures Used(blk[b := data], sb, c) == Used(blk, sb, c)
  {
    assert sb.bmapstart + c / BPB < sb.datastart;
  }

  lemma {:induction false} UsedAfterLow(blk: seq<Block>, sb: Superblock, b: nat, data: Block, c: nat)
    requires SuperblockOk(sb, |blk|) && b < sb.bmapstart && c < sb.size
    ensures Used(blk[b := data], sb, c) == Used(blk, sb, c)
  {
    assert sb.bmapstart + c / BPB < sb.datastart;
  }

  lemma {:induction false} UsedSame(blk: seq<Block>, sb: Superblock, blk': seq<Block>, c: nat)
    requires SuperblockOk(sb, |blk|) && |blk'| == |blk| && c < sb.size
    requires forall b :: sb.bmapstart <= b < sb.datastart ==> blk'[b] == blk[b]
    ensures Used(blk', sb, c) == Used(blk, sb, c)
  {
    assert sb.bmapstart + c / BPB < sb.datastart;
    hide TestBit;
  }

  /** The set bits of the bitmap: the reserved blocks, the recorded ones, and extra. */
  ghost predicate Bits(blk: seq<Block>, sb: Superblock, owner: map<nat, Place>, extra: set<nat>)
    requires SuperblockOk(sb, |blk|)
  {
    forall b :: 0 <= b < sb.size ==> (Used(blk, sb, b) <==> b < sb.datastart || b in owner || b in extra)
  }

  /** No block address is in two slots. */
  lemma {:induction false} NoSharing(blk: seq<Block>, sb: Superblock, inodes: seq<Inode>, owner: map<nat, Place>, p: Place, q: Place)
    requires Owns(blk, sb, inodes, owner)
    requires p.inum < |inodes| && q.inum < |inodes| && p.s < NSLOT && q.s < NSLOT
    requires Addr(blk, inodes[p.inum], p.s) == Addr(blk, inodes[q.inum], q.s) != 0
    ensures p == q
  {
  }

  /** blk' agrees with blk on the recorded blocks. */
  ghost predicate SameOwned(blk: seq<Block>, blk': seq<Block>, owner: map<nat, Place>)
  {
    |blk'| == |blk| && forall b :: b in owner && b < |blk| ==> blk'[b] == blk[b]
  }

  lemma {:induction false} AddrFrame(blk: seq<Block>, blk': seq<Block>, inodes: seq<Inode>, owner: map<nat, Place>, i: nat, lo: nat, hi: nat, k: nat, s: nat)
    requires Recorded(blk, inodes, owner, i, lo, hi) && lo > NDIRECT && SameOwned(blk, blk', owner) && k < |inodes| && s < NSLOT
    ensures Addr(blk', inodes[k], s) == Addr(blk, inodes[k], s)
  {
    assert Addr(blk, inodes[k], NDIRECT) == inodes[k].addrs[NDIRECT];
  }

  /** Writing blocks that no slot holds leaves the ownership as it is. */
  lemma {:induction false} OwnsFrame(blk: seq<Block>, blk': seq<Block>, sb: Superblock, inodes: seq<Inode>, owner: map<nat, Place>)
    requires Owns(blk, sb, inodes, owner) && SameOwned(blk, blk', owner)
    ensures Owns(blk', sb, inodes, owner)
  {
    forall k, s | 0 <= k < |inodes| && 0 <= s < NSLOT
      ensures Addr(blk', inodes[k], s) == Addr(blk, inodes[k], s)
    {
      AddrFrame(blk, blk', inodes, owner, 0, NSLOT, NSLOT, k, s);
    }
  }

  // ---------------------------------------------------------------- allocation

  /** balloc's effect: mark block a, then zero it. */
  function Allocated(blk: seq<Block>, sb: Superblock, a: nat): (r: seq<Block>)
    requires SuperblockOk(sb, |blk|) && a < sb.size
    ensures |r| == |blk|
  {
    Marked(blk, sb, a, true)[a := ZeroBlock()]
  }

  lemma {:induction false} AllocatedBits(blk: seq<Block>, sb: Superblock, owner: map<nat, Place>, a: nat)
    requires SuperblockOk(sb, |blk|) && Bits(blk, sb, owner, {}) && sb.datastart <= a < sb.size
    ensures Bits(Allocated(blk, sb, a), sb, owner, {a})
  {
    var blk1 := Marked(blk, sb, a, true);
    var blk' := Allocated(blk, sb, a);
    forall b | 0 <= b < sb.size
      ensures Used(blk', sb, b) == (b == a || Used(blk, sb, b))
    {
      UsedAfterMarked(blk, sb, a, true, b);
      UsedAfterData(blk1, sb, a, ZeroBlock(), b);
    }
    hide Used, Marked;
  }

  lemma {:induction false} AllocatedOwns(blk: seq<Block>, sb: Superblock, inodes: seq<Inode>, owner: map<nat, Place>, a: nat)
    requires SuperblockOk(sb, |blk|) && Owns(blk, sb, inodes, owner) && sb.datastart <= a < sb.size && a !in owner
    ensures SameOwned(blk, Allocated(blk, sb, a), owner)
    ensures Owns(Allocated(blk, sb, a), sb, inodes, owner)
  {
    forall c | c in owner
      ensures c < |blk| && Allocated(blk, sb, a)[c] == blk[c]
    {
      MarkedKeepsData(blk, sb, a, true, c);
    }
    hide Marked;
    assert SameOwned(blk, Allocated(blk, sb, a), owner);
    OwnsFrame(blk, Allocated(blk, sb, a), sb, inodes, owner);
  }

  /** Storing a fresh block in an empty direct slot, or a fresh zeroed block as the indirect block. */
  lemma {:induction false} AttachDirect(blk: seq<Block>, sb: Superblock, inodes: seq<Inode>, owner: map<nat, Place>, i: nat, s: nat, a: nat)
    requires Owns(blk, sb, inodes, owner) && i < |inodes| && s <= NDIRECT && inodes[i].addrs[s] == 0
    requires SuperblockOk(sb, |blk|) && sb.datastart <= a < sb.size && a !in owner
    requires s == NDIRECT ==> blk[a] == ZeroBlock()
    ensures
      var inodes' := inodes[i := inodes[i].(addrs := inodes[i].addrs[s := a])];
      && Owns(blk, sb, inodes', owner[a := Place(i, s)])
      && (forall t :: 0 <= t < NSLOT ==> Addr(blk, inodes'[i], t) == if t == s then a else Addr(blk, inodes[i], t))
  {
    var inodes' := inodes[i := inodes[i].(addrs := inodes[i].addrs[s := a])];
    AttachedAddrs(blk, inodes[i], s, a);
    assert Addr(blk, inodes[i], s) == 0;
    hide Addr, ZeroBlock;
    AddOwner(blk, sb, inodes, inodes', owner, i, s, a);
  }

  lemma {:induction false} AttachedAddrs(blk: seq<Block>, ip: Inode, s: nat, a: nat)
    requires s <= NDIRECT && ip.addrs[s] == 0 && (s == NDIRECT ==> a < |blk| && blk[a] == ZeroBlock())
    ensures forall t :: 0 <= t < NSLOT ==> Addr(blk, ip.(addrs := ip.addrs[s := a]), t) == if t == s then a else Addr(blk, ip, t)
  {
    var ip' := ip.(addrs := ip.addrs[s := a]);
    forall t | 0 <= t < NSLOT
      ensures Addr(blk, ip', t) == if t == s then a else Addr(blk, ip, t)
    {
      if t > NDIRECT && s == NDIRECT {
        ZeroBlockWords(t - NDIRECT - 1);
      }
    }
  }

  /** One slot more that holds a block, and its owner. */
  lemma {:induction false} AddOwner(blk: seq<Block>, sb: Superblock, inodes: seq<Inode>, inodes': seq<Inode>, owner: map<nat, Place>, i: nat, s: nat, a: nat)
    requires Owns(blk, sb, inodes, owner) && i < |inodes| && |inodes'| == |inodes| && s < NSLOT && Addr(blk, inodes[i], s) == 0
    requires sb.datastart <= a < sb.size && a !in owner
    requires forall k :: 0 <= k < |inodes| && k != i ==> inodes'[k] == inodes[k]
    requires forall t :: 0 <= t < NSLOT ==> Addr(blk, inodes'[i], t) == if t == s then a else Addr(blk, inodes[i], t)
    requires sb.datastart > 0
    ensures Owns(blk, sb, inodes', owner[a := Place(i, s)])
  {
    hide Addr;
  }

  /** Storing a fresh block in an empty entry of the indirect block. */
  lemma {:induction false} AttachIndirect(blk: seq<Block>, sb: Superblock, inodes: seq<Inode>, owner: map<nat, Place>, i: nat, j: nat, a: nat)
    requires Owns(blk, sb, inodes, owner) && i < |inodes| && j < NINDIRECT
    requires inodes[i].addrs[NDIRECT] != 0 && SuperblockOk(sb, |blk|)
    requires Addr(blk, inodes[i], NDIRECT + 1 + j) == 0
    requires sb.datastart <= a < sb.size && a !in owner
    ensures inodes[i].addrs[NDIRECT] in owner && inodes[i].addrs[NDIRECT] < |blk|
    ensures
      var ind := inodes[i].addrs[NDIRECT];
      var blk' := blk[ind := SetWord(blk[ind], j, a)];
      && Owns(blk', sb, inodes, owner[a := Place(i, NDIRECT + 1 + j)])
      && (forall t :: 0 <= t < NSLOT ==> Addr(blk', inodes[i], t) == if t == NDIRECT + 1 + j then a else Addr(blk, inodes[i], t))
  {
    var ind := inodes[i].addrs[NDIRECT];
    assert Addr(blk, inodes[i], NDIRECT) == ind;
    assert ind in owner && owner[ind] == Place(i, NDIRECT);
    var blk' := blk[ind := SetWord(blk[ind], j, a)];
    EntryAddrs(blk, inodes[i], j, a);
    OtherAddrs(blk, inodes, owner, i, blk');
    hide Addr, SetWord;
    AddEntryOwner(blk, blk', sb, inodes, owner, i, NDIRECT + 1 + j, a);
  }

  lemma {:induction false} EntryAddrs(blk: seq<Block>, ip: Inode, j: nat, a: nat)
    requires 0 < ip.addrs[NDIRECT] < |blk| && j < NINDIRECT && a < TWO32
    ensures
      var ind := ip.addrs[NDIRECT];
      forall t :: 0 <= t < NSLOT ==> Addr(blk[ind := SetWord(blk[ind], j, a)], ip, t) == if t == NDIRECT + 1 + j then a else Addr(blk, ip, t)
  {
    hide SetWord, Word;
    var ind := ip.addrs[NDIRECT];
    var blk' := blk[ind := SetWord(blk[ind], j, a)];
    forall t | 0 <= t < NSLOT
      ensures Addr(blk', ip, t) == if t == NDIRECT + 1 + j then a else Addr(blk, ip, t)
    {
      if t > NDIRECT {
        WordAfterSetWord(blk[ind], j, a, t - NDIRECT - 1);
      }
    }
  }

  /** Only inode i sees its indirect block. */
  lemma {:induction false} OtherAddrs(blk: seq<Block>, inodes: seq<Inode>, owner: map<nat, Place>, i: nat, blk': seq<Block>)
    requires Recorded(blk, inodes, owner, 0, 0, 0) && |blk'| == |blk| && i < |inodes|
    requires inodes[i].addrs[NDIRECT] in owner && owner[inodes[i].addrs[NDIRECT]] == Place(i, NDIRECT)
    requires forall b :: 0 <= b < |blk| && b != inodes[i].addrs[NDIRECT] ==> blk'[b] == blk[b]
    ensures forall k, t :: 0 <= k < |inodes| && 0 <= t < NSLOT && k != i ==> Addr(blk', inodes[k], t) == Addr(blk, inodes[k], t)
  {
    forall k, t | 0 <= k < |inodes| && 0 <= t < NSLOT && k != i
      ensures Addr(blk', inodes[k], t) == Addr(blk, inodes[k], t)
    {
      assert Addr(blk, inodes[k], NDIRECT) == inodes[k].addrs[NDIRECT];
    }
  }

  lemma {:induction false} AddEntryOwner(blk: seq<Block>, blk': seq<Block>, sb: Superblock, inodes: seq<Inode>, owner: map<nat, Place>, i: nat, s: nat, a: nat)
    requires Owns(blk, sb, inodes, owner) && i < |inodes| && s < NSLOT && Addr(blk, inodes[i], s) == 0 && 0 < sb.datastart <= a < sb.size && a !in owner
    requires forall t :: 0 <= t < NSLOT ==> Addr(blk', inodes[i], t) == if t == s then a else Addr(blk, inodes[i], t)
    requires forall k, t :: 0 <= k < |inodes| && 0 <= t < NSLOT && k != i ==> Addr(blk', inodes[k], t) == Addr(blk, inodes[k], t)
    ensures Owns(blk', sb, inodes, owner[a := Place(i, s)])
  {
    hide Addr;
  }

  // ---------------------------------------------------------------- freeing

  lemma {:induction false} FreedBits(blk: seq<Block>, sb: Superblock, owner: map<nat, Place>, b: nat)
    requires SuperblockOk(sb, |blk|) && Bits(blk, sb, owner, {}) && sb.datastart <= b < sb.size && b in owner
    ensures Used(blk, sb, b)
    ensures Bits(Marked(blk, sb, b, false), sb, owner - {b}, {})
  {
    hide Used, Marked, SuperblockOk;
    var blk' := Marked(blk, sb, b, false);
    forall c | 0 <= c < sb.size
      ensures Used(blk', sb, c) == (c != b && Used(blk, sb, c))
    {
      UsedAfterMarked(blk, sb, b, false, c);
    }
  }

  /** Clearing the bit of a recorded block and forgetting who owned it; its slot still names it. */
  lemma {:induction false} FreedBlock(blk: seq<Block>, sb: Superblock, inodes: seq<Inode>, owner: map<nat, Place>, i: nat, lo: nat, hi: nat, b: nat)
    requires SuperblockOk(sb, |blk|) && Recorded(blk, inodes, owner, i, lo, hi) && lo > NDIRECT
    requires Placed(blk, sb, inodes, owner) && Bits(blk, sb, owner, {}) && b in owner && owner[b].inum == i
    ensures b < sb.size && Used(blk, sb, b)
    ensures
      var blk' := Marked(blk, sb, b, false);
      && Bits(blk', sb, owner - {b}, {})
      && (forall k, s :: 0 <= k < |inodes| && 0 <= s < NSLOT ==> Addr(blk', inodes[k], s) == Addr(blk, inodes[k], s))
      && OthersKept(i, blk, inodes, owner, blk', inodes, owner - {b})
  {
    FreedBits(blk, sb, owner, b);
    hide Bits, Used;
    var blk' := Marked(blk, sb, b, false);
    forall c | c in owner
      ensures c < |blk| && blk'[c] == blk[c]
    {
      MarkedKeepsData(blk, sb, b, false, c);
    }
    hide Marked, Placed, SuperblockOk;
    forall k, s | 0 <= k < |inodes| && 0 <= s < NSLOT
      ensures Addr(blk', inodes[k], s) == Addr(blk, inodes[k], s)
    {
      AddrFrame(blk, blk', inodes, owner, i, lo, hi, k, s);
    }
    hide Addr;
  }

  /** Same addresses everywhere, one owner fewer. */
  lemma {:induction false} ForgetOwner(blk: seq<Block>, blk': seq<Block>, sb: Superblock, inodes: seq<Inode>, owner: map<nat, Place>,
                                       i: nat, lo: nat, hi: nat, b: nat, lo': nat, hi': nat)
    requires Recorded(blk, inodes, owner, i, lo, hi) && Placed(blk, sb, inodes, owner) && b in owner
    requires forall k, s :: 0 <= k < |inodes| && 0 <= s < NSLOT ==> Addr(blk', inodes[k], s) == Addr(blk, inodes[k], s)
    requires owner[b].inum == i && lo' <= owner[b].s < hi' && (lo < hi ==> lo' <= lo && hi <= hi')
    ensures Recorded(blk', inodes, owner - {b}, i, lo', hi') && Placed(blk', sb, inodes, owner - {b})
  {
    hide Addr;
  }

  /** Zeroing an inode's own address s clears slot s, and with the indirect block gone all its entries too. */
  lemma {:induction false} ClearSlot(blk: seq<Block>, sb: Superblock, inodes: seq<Inode>, owner: map<nat, Place>, i: nat, s: nat)
    requires i < |inodes| && s <= NDIRECT && sb.datastart > 0
    requires
      var hi := if s == NDIRECT then NSLOT else s + 1;
      && Recorded(blk, inodes, owner, i, s, hi) && Placed(blk, sb, inodes, owner)
      && forall b :: b in owner && owner[b].inum == i ==> !(s <= owner[b].s < hi)
    ensures Owns(blk, sb, inodes[i := inodes[i].(addrs := inodes[i].addrs[s := 0])], owner)
  {
    var hi := if s == NDIRECT then NSLOT else s + 1;
    var inodes' := inodes[i := inodes[i].(addrs := inodes[i].addrs[s := 0])];
    forall k, t | 0 <= k < |inodes| && 0 <= t < NSLOT
      ensures Addr(blk, inodes'[k], t) == if k == i && s <= t < hi then 0 else Addr(blk, inodes[k], t)
    {
    }
    hide Addr;
  }

  /** Only the slot that names a block can own it. */
  lemma {:induction false} OnlyPlace(blk: seq<Block>, sb: Superblock, inodes: seq<Inode>, owner: map<nat, Place>, b: nat, c: nat)
    requires Placed(blk, sb, inodes, owner) && b in owner && c in owner && owner[b] == owner[c]
    ensures b == c
  {
  }

  /** The block in slot s of an inode is recorded for that slot, and no other block is. */
  lemma {:induction false} SlotOwner(blk: seq<Block>, sb: Superblock, inodes: seq<Inode>, owner: map<nat, Place>, i: nat, s: nat, lo: nat)
    requires SuperblockOk(sb, |blk|) && Placed(blk, sb, inodes, owner) && s <= NDIRECT < lo
    requires Recorded(blk, inodes, owner, i, lo, NSLOT) || Recorded(blk, inodes, owner, 0, 0, 0)
    requires i < |inodes| && inodes[i].addrs[s] != 0
    ensures inodes[i].addrs[s] in owner && owner[inodes[i].addrs[s]] == Place(i, s)
    ensures inodes[i].addrs[s] < sb.size == |blk| && sb.datastart > 0
    ensures forall c :: c in owner && c != inodes[i].addrs[s] ==> owner[c] != Place(i, s)
    ensures Recorded(blk, inodes, owner, i, lo, NSLOT)
  {
    assert Addr(blk, inodes[i], s) == inodes[i].addrs[s];
    hide Addr;
  }

  /** itrunc's first loop: free the block in a direct slot and clear the slot. */
  lemma {:induction false} FreedDirect(blk: seq<Block>, sb: Superblock, inodes: seq<Inode>, owner: map<nat, Place>, i: nat, s: nat)
    requires SuperblockOk(sb, |blk|) && Owns(blk, sb, inodes, owner) && Bits(blk, sb, owner, {})
    requires i < |inodes| && s < NDIRECT && inodes[i].addrs[s] != 0
    ensures inodes[i].addrs[s] in owner && owner[inodes[i].addrs[s]] == Place(i, s)
    ensures inodes[i].addrs[s] < sb.size && Used(blk, sb, inodes[i].addrs[s])
    ensures
      var b := inodes[i].addrs[s];
      var blk', inodes' := Marked(blk, sb, b, false), inodes[i := inodes[i].(addrs := inodes[i].addrs[s := 0])];
      && Owns(blk', sb, inodes', owner - {b}) && Bits(blk', sb, owner - {b}, {})
      && OthersKept(i, blk, inodes, owner, blk', inodes', owner - {b})
  {
    hide Addr, Marked, Bits, Used, OthersKept, SuperblockOk, Recorded, Placed;
    var b := inodes[i].addrs[s];
    SlotOwner(blk, sb, inodes, owner, i, s, NSLOT);
    FreedBlock(blk, sb, inodes, owner, i, NSLOT, NSLOT, b);
    var blk' := Marked(blk, sb, b, false);
    OthersKeptSlot(i, blk, inodes, owner, blk', inodes, owner - {b}, inodes[i].(addrs := inodes[i].addrs[s := 0]));
    ForgetOwner(blk, blk', sb, inodes, owner, i, NSLOT, NSLOT, b, s, s + 1);
    ClearSlot(blk', sb, inodes, owner - {b}, i, s);
  }

  /** itrunc's second loop: free the block in entry j of the indirect block, which itself is left alone. */
  lemma {:induction false} FreedEntry(blk: seq<Block>, sb: Superblock, inodes: seq<Inode>, owner: map<nat, Place>, i: nat, j: nat)
    requires SuperblockOk(sb, |blk|) && Recorded(blk, inodes, owner, i, NDIRECT + 1, NDIRECT + 1 + j)
    requires Placed(blk, sb, inodes, owner) && Bits(blk, sb, owner, {})
    requires i < |inodes| && j < NINDIRECT && Addr(blk, inodes[i], NDIRECT + 1 + j) != 0
    ensures
      var b := Addr(blk, inodes[i], NDIRECT + 1 + j);
      && b in owner && owner[b] == Place(i, NDIRECT + 1 + j) && b < sb.size && Used(blk, sb, b)
      && var blk' := Marked(blk, sb, b, false);
      && Recorded(blk', inodes, owner - {b}, i, NDIRECT + 1, NDIRECT + 2 + j)
      && Placed(blk', sb, inodes, owner - {b}) && Bits(blk', sb, owner - {b}, {})
      && Addr(blk', inodes[i], NDIRECT) == Addr(blk, inodes[i], NDIRECT)
      && OthersKept(i, blk, inodes, owner, blk', inodes, owner - {b})
  {
    hide Addr;
    var b := Addr(blk, inodes[i], NDIRECT + 1 + j);
    assert owner[b] == Place(i, NDIRECT + 1 + j);
    FreedBlock(blk, sb, inodes, owner, i, NDIRECT + 1, NDIRECT + 1 + j, b);
    hide Marked, Bits, Used, SuperblockOk;
    ForgetOwner(blk, Marked(blk, sb, b, false), sb, inodes, owner, i, NDIRECT + 1, NDIRECT + 1 + j, b, NDIRECT + 1, NDIRECT + 2 + j);
  }

  /** The other inodes do not depend on inode i's own record. */
  lemma {:induction false} OthersKeptSlot(i: nat, blk: seq<Block>, inodes: seq<Inode>, owner: map<nat, Place>,
                                          blk': seq<Block>, inodes': seq<Inode>, owner': map<nat, Place>, ip: Inode)
    requires OthersKept(i, blk, inodes, owner, blk', inodes', owner') && i < |inodes|
    ensures i < |inodes'| && OthersKept(i, blk, inodes, owner, blk', inodes'[i := ip], owner')
  {
  }

  /** Last, the indirect block: with it gone, so are all its entries. */
  lemma {:induction false} FreedIndirect(blk: seq<Block>, sb: Superblock, inodes: seq<Inode>, owner: map<nat, Place>, i: nat)
    requires SuperblockOk(sb, |blk|) && Recorded(blk, inodes, owner, i, NDIRECT + 1, NSLOT)
    requires Placed(blk, sb, inodes, owner) && Bits(blk, sb, owner, {})
    requires i < |inodes| && inodes[i].addrs[NDIRECT] != 0
    requires forall b :: b in owner && owner[b].inum == i ==> owner[b].s <= NDIRECT
    ensures inodes[i].addrs[NDIRECT] in owner && owner[inodes[i].addrs[NDIRECT]] == Place(i, NDIRECT)
    ensures inodes[i].addrs[NDIRECT] < sb.size && Used(blk, sb, inodes[i].addrs[NDIRECT])
    ensures
      var b := inodes[i].addrs[NDIRECT];
      var blk', inodes' := Marked(blk, sb, b, false), inodes[i := inodes[i].(addrs := inodes[i].addrs[NDIRECT := 0])];
      && Owns(blk', sb, inodes', owner - {b}) && Bits(blk', sb, owner - {b}, {})
      && OthersKept(i, blk, inodes, owner, blk', inodes', owner - {b})
  {
    hide Addr, Marked, Bits, Used, OthersKept, SuperblockOk, Recorded, Placed;
    var b := inodes[i].addrs[NDIRECT];
    SlotOwner(blk, sb, inodes, owner, i, NDIRECT, NDIRECT + 1);
    FreedBlock(blk, sb, inodes, owner, i, NDIRECT + 1, NSLOT, b);
    var blk' := Marked(blk, sb, b, false);
    OthersKeptSlot(i, blk, inodes, owner, blk', inodes, owner - {b}, inodes[i].(addrs := inodes[i].addrs[NDIRECT := 0]));
    ForgetOwner(blk, blk', sb, inodes, owner, i, NDIRECT + 1, NSLOT, b, NDIRECT, NSLOT);
    ClearSlot(blk', sb, inodes, owner - {b}, i, NDIRECT);
  }

  // ---------------------------------------------------------------- file bytes

  /** The byte at offset off of a file, in whatever block its slot holds. */
  function ByteAt(blk: seq<Block>, ip: Inode, off: nat): (x: Byte)
    requires off < MAXFILE * BSIZE
  {
    var a := Addr(blk, ip, FileSlot(off / BSIZE));
    if a < |blk| then blk[a][off % BSIZE] else 0
  }

  /** Every block up to the size is there. */
  ghost predicate NoHoles(blk: seq<Block>, ip: Inode)
  {
    && ip.size <= MAXFILE * BSIZE
    && forall bn :: 0 <= bn < MAXFILE && bn * BSIZE < ip.size ==> Addr(blk, ip, FileSlot(bn)) != 0
  }

  /** The file as a byte sequence. */
  function Contents(blk: seq<Block>, ip: Inode): (c: seq<Byte>)
    requires ip.size <= MAXFILE * BSIZE
    ensures |c| == ip.size
  {
    seq(ip.size, off requires 0 <= off < ip.size => ByteAt(blk, ip, off))
  }

  /** Nothing of an inode other than i changed: its slots, its blocks, its size. */
  ghost predicate OthersKept(i: nat, blk: seq<Block>, inodes: seq<Inode>, owner: map<nat, Place>,
                             blk': seq<Block>, inodes': seq<Inode>, owner': map<nat, Place>)
  {
    && |blk'| == |blk| && |inodes'| == |inodes|
    && (forall k :: 0 <= k < |inodes| && k != i ==> inodes'[k] == inodes[k])
    && (forall b :: b in owner && owner[b].inum != i && b < |blk| ==> b in owner' && owner'[b] == owner[b] && blk'[b] == blk[b])
  }

  lemma {:induction false} OthersKeptTrans(i: nat, blk: seq<Block>, inodes: seq<Inode>, owner: map<nat, Place>,
                                           blk1: seq<Block>, inodes1: seq<Inode>, owner1: map<nat, Place>,
                                           blk2: seq<Block>, inodes2: seq<Inode>, owner2: map<nat, Place>)
    requires OthersKept(i, blk, inodes, owner, blk1, inodes1, owner1) && OthersKept(i, blk1, inodes1, owner1, blk2, inodes2, owner2)
    ensures OthersKept(i, blk, inodes, owner, blk2, inodes2, owner2)
  {
  }

  /** Then no byte of any other file changed. */
  lemma {:induction false} OtherContents(i: nat, blk: seq<Block>, inodes: seq<Inode>, owner: map<nat, Place>,
                                         blk': seq<Block>, inodes': seq<Inode>, owner': map<nat, Place>, k: nat)
    requires OthersKept(i, blk, inodes, owner, blk', inodes', owner')
    requires Recorded(blk, inodes, owner, 0, 0, 0) && k < |inodes| && k != i && NoHoles(blk, inodes[k])
    ensures NoHoles(blk', inodes'[k]) && Contents(blk', inodes'[k]) == Contents(blk, inodes[k])
  {
    forall s | 0 <= s < NSLOT
      ensures Addr(blk', inodes'[k], s) == Addr(blk, inodes[k], s)
    {
      assert Addr(blk, inodes[k], NDIRECT) == inodes[k].addrs[NDIRECT];
    }
    forall off | 0 <= off < inodes[k].size
      ensures ByteAt(blk', inodes'[k], off) == ByteAt(blk, inodes[k], off)
    {
      var s := FileSlot(off / BSIZE);
      assert Addr(blk, inodes[k], s) != 0;
      assert owner[Addr(blk, inodes[k], s)] == Place(k, s);
    }
  }

  /** Writing a data block: the slots stay, and exactly the bytes of that block change. */
  lemma {:induction false} DataWriteOwns(blk: seq<Block>, sb: Superblock, inodes: seq<Inode>, owner: map<nat, Place>, b: nat, data: Block)
    requires Owns(blk, sb, inodes, owner) && SuperblockOk(sb, |blk|)
    requires b in owner && owner[b].s != NDIRECT && b < |blk|
    ensures Owns(blk[b := data], sb, inodes, owner)
    ensures forall k, s :: 0 <= k < |inodes| && 0 <= s < NSLOT ==> Addr(blk[b := data], inodes[k], s) == Addr(blk, inodes[k], s)
  {
    var blk' := blk[b := data];
    forall k, s | 0 <= k < |inodes| && 0 <= s < NSLOT
      ensures Addr(blk', inodes[k], s) == Addr(blk, inodes[k], s)
    {
      assert Addr(blk, inodes[k], NDIRECT) == inodes[k].addrs[NDIRECT];
    }
  }

  // ---------------------------------------------------------------- inodes on disk

  /** Sixteen words for each inode: type and link count in the first two, the size, the addresses. */
  const DWORDS := 16

  function InodeBlock(sb: Superblock, i: nat): (b: nat)
  {
    sb.inodestart + i / IPB
  }

  predicate Storable(ip: Inode)
  {
    ip.size < TWO32 && forall j :: 0 <= j <= NDIRECT ==> ip.addrs[j] < TWO32
  }

  /** The first n block addresses copied to their words in the inode block. */
  function PutAddrs(b: Block, slot: nat, addrs: Addrs, n: nat): (r: Block)
    requires slot < IPB && n <= NDIRECT + 1 && forall j :: 0 <= j <= NDIRECT ==> addrs[j] < TWO32
  {
    if n == 0 then b else SetWord(PutAddrs(b, slot, addrs, n - 1), DWORDS * slot + 2 + n, addrs[n - 1])
  }

  /** iupdate's stores into the inode block. */
  function PutInode(b: Block, slot: nat, ip: Inode): (r: Block)
    requires slot < IPB && Storable(ip)
  {
    PutAddrs(SetWord(b, DWORDS * slot + 2, ip.size), slot, ip.addrs, NDIRECT + 1)
  }

  function NatWord(b: Block, j: nat): (v: nat)
    requires j < WORDS
  {
    Word(b, j)
  }

  function GetInode(b: Block, slot: nat): (ip: Inode)
    requires slot < IPB
  {
    var addrs := seq<nat>(NDIRECT + 1, j requires 0 <= j <= NDIRECT => NatWord(b, DWORDS * slot + 3 + j));
    Inode(Word(b, DWORDS * slot + 2), addrs)
  }

  lemma {:induction false} PutAddrsWords(b: Block, slot: nat, addrs: Addrs, n: nat, j: nat)
    requires slot < IPB && n <= NDIRECT + 1 && (forall j :: 0 <= j <= NDIRECT ==> addrs[j] < TWO32) && j < WORDS
    ensures Word(PutAddrs(b, slot, addrs, n), j) ==
            if DWORDS * slot + 3 <= j < DWORDS * slot + 3 + n then addrs[j - DWORDS * slot - 3] else Word(b, j)
  {
    if n > 0 {
      PutAddrsWords(b, slot, addrs, n - 1, j);
      WordAfterSetWord(PutAddrs(b, slot, addrs, n - 1), DWORDS * slot + 2 + n, addrs[n - 1], j);
    }
  }

  lemma {:induction false} PutInodeWords(b: Block, slot: nat, ip: Inode, j: nat)
    requires slot < IPB && j < WORDS && Storable(ip)
    ensures Word(PutInode(b, slot, ip), j) ==
            if DWORDS * slot + 3 <= j < DWORDS * slot + DWORDS then ip.addrs[j - DWORDS * slot - 3]
            else if j == DWORDS * slot + 2 then ip.size else Word(b, j)
  {
    hide Word, SetWord, PutAddrs;
    PutAddrsWords(SetWord(b, DWORDS * slot + 2, ip.size), slot, ip.addrs, NDIRECT + 1, j);
    WordAfterSetWord(b, DWORDS * slot + 2, ip.size, j);
  }

  /** Storing an inode in its block and reading the block's inodes back: that one changed, the others did not. */
  lemma {:induction false} InodeAfterPut(b: Block, slot: nat, ip: Inode, k: nat)
    requires slot < IPB && k < IPB && Storable(ip)
    ensures GetInode(PutInode(b, slot, ip), k) == if k == slot then ip else GetInode(b, k)
  {
    hide PutInode, Word;
    var r := PutInode(b, slot, ip);
    var x, y := GetInode(r, k), if k == slot then ip else GetInode(b, k);
    assert k < slot ==> DWORDS * k + DWORDS <= DWORDS * slot;
    assert k > slot ==> DWORDS * k >= DWORDS * slot + DWORDS;
    PutInodeWords(b, slot, ip, DWORDS * k + 2);
    forall j | 0 <= j <= NDIRECT
      ensures x.addrs[j] == y.addrs[j]
    {
      var w := DWORDS * k + 3 + j;
      PutInodeWords(b, slot, ip, w);
      assert x.addrs[j] == NatWord(r, w);
      if k == slot {
        assert Word(r, w) == ip.addrs[j];
      } else {
        assert w < DWORDS * slot || w >= DWORDS * slot + DWORDS;
        assert y.addrs[j] == NatWord(b, w);
      }
    }
    assert x.addrs == y.addrs;
  }

  /** Inode i as the disk has it. */
  function Dinode(blk: seq<Block>, sb: Superblock, i: nat): (ip: Inode)
    requires InodeBlock(sb, i) < |blk|
  {
    GetInode(blk[InodeBlock(sb, i)], i % IPB)
  }

  function WithDinode(blk: seq<Block>, sb: Superblock, i: nat, ip: Inode): (r: seq<Block>)
    requires InodeBlock(sb, i) < |blk| && Storable(ip)
    ensures |r| == |blk|
  {
    blk[InodeBlock(sb, i) := PutInode(blk[InodeBlock(sb, i)], i % IPB, ip)]
  }

  /** iupdate changes that inode on disk alone. */
  lemma {:induction false} DinodeAfterUpdate(blk: seq<Block>, sb: Superblock, i: nat, ip: Inode, k: nat)
    requires InodeBlock(sb, i) < |blk| && InodeBlock(sb, k) < |blk| && Storable(ip)
    ensures Dinode(WithDinode(blk, sb, i, ip), sb, k) == if k == i then ip else Dinode(blk, sb, k)
  {
    hide PutInode, GetInode;
    InodeAfterPut(blk[InodeBlock(sb, i)], i % IPB, ip, k % IPB);
    if k % IPB == i % IPB && k / IPB == i / IPB {
      assert k == i;
    }
  }

  /**
    Where the bytes of file i are on the disk. Its record of 64 bytes lies in block inodestart +
    i / 16, with the size at byte 8 and thirteen addresses from byte 12 on; byte off is in the
    block that address off / 1024 names, or, from the twelfth on, in the one that entry
    off / 1024 - 12 of the last address's block names.
   */
  lemma {:induction false} FileByteOnDisk(blk: seq<Block>, sb: Superblock, i: nat, off: nat)
    requires sb.inodestart + i / 16 < |blk| && off < 268 * 1024
    ensures
      var d := blk[sb.inodestart + i / 16][i % 16 * 64..i % 16 * 64 + 64];
      var bn := off / 1024;
      var ind := LittleEndian(d[60..64]);
      && Dinode(blk, sb, i).size == LittleEndian(d[8..12])
      && (bn < 12 ==>
           var a := LittleEndian(d[12 + 4 * bn..16 + 4 * bn]);
           a < |blk| ==> ByteAt(blk, Dinode(blk, sb, i), off) == blk[a][off % 1024])
      && (bn >= 12 && 0 < ind < |blk| ==>
           var a := LittleEndian(blk[ind][4 * (bn - 12)..4 * (bn - 12) + 4]);
           a < |blk| ==> ByteAt(blk, Dinode(blk, sb, i), off) == blk[a][off % 1024])
  {
    hide Word, LittleEndian;
    var b, slot, bn := blk[sb.inodestart + i / 16], i % 16, off / 1024;
    var d := b[slot * 64..slot * 64 + 64];
    RecordWord(b, slot, 2);
    RecordWord(b, slot, 15);
    var ip := Dinode(blk, sb, i);
    if bn < 12 {
      RecordWord(b, slot, 3 + bn);
      assert Addr(blk, ip, FileSlot(bn)) == ip.addrs[bn] == Word(b, DWORDS * slot + 3 + bn);
    } else {
      var ind := LittleEndian(d[60..64]);
      assert ip.addrs[NDIRECT] == NatWord(b, DWORDS * slot + 3 + NDIRECT);
      if 0 < ind < |blk| {
        WordBytes(blk[ind], bn - 12);
        assert Addr(blk, ip, FileSlot(bn)) == Word(blk[ind], bn - 12);
      }
    }
  }

  lemma {:induction false} RecordWord(b: Block, slot: nat, j: nat)
    requires slot < IPB && j < DWORDS
    ensures Word(b, DWORDS * slot + j) == LittleEndian(b[slot * 64..slot * 64 + 64][4 * j..4 * j + 4])
  {
    hide Word, LittleEndian;
    WordBytes(b, DWORDS * slot + j);
    assert b[slot * 64..slot * 64 + 64][4 * j..4 * j + 4] == b[4 * (DWORDS * slot + j)..4 * (DWORDS * slot + j) + 4];
  }

  /** iupdate's stores touch the last 56 bytes of that record only. */
  lemma {:induction false} RecordKept(b: Block, slot: nat, ip: Inode, k: nat)
    requires slot < IPB && Storable(ip) && k < BSIZE && !(64 * slot + 8 <= k < 64 * slot + 64)
    ensures PutInode(b, slot, ip)[k] == b[k]
  {
    hide SetWord;
    AddrsKeep(SetWord(b, DWORDS * slot + 2, ip.size), slot, ip.addrs, NDIRECT + 1, k);
    SetWordKeeps(b, DWORDS * slot + 2, ip.size, k);
  }

  lemma {:induction false} AddrsKeep(b: Block, slot: nat, addrs: Addrs, n: nat, k: nat)
    requires slot < IPB && n <= NDIRECT + 1 && (forall j :: 0 <= j <= NDIRECT ==> addrs[j] < TWO32)
    requires k < BSIZE && !(64 * slot + 8 <= k < 64 * slot + 64)
    ensures PutAddrs(b, slot, addrs, n)[k] == b[k]
  {
    hide SetWord;
    if n > 0 {
      AddrsKeep(b, slot, addrs, n - 1, k);
      SetWordKeeps(PutAddrs(b, slot, addrs, n - 1), DWORDS * slot + 2 + n, addrs[n - 1], k);
    }
  }
}
