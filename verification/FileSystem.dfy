/**
  The block allocator and the inode layer over the block map that the log and the cache provide:
  balloc, bfree, bmap, itrunc, readi and writei. Buffers are read from and log_written to blk
  directly, and logged collects the blocks log_written since the transaction began.
 */
module FileSystem {
  import opened Blocks
  import opened Bitmap
  import opened Inodes

  /** Slots that held a block still hold it, and slots other than s and the indirect one that held none still hold none. */
  ghost predicate SlotsGrew(blk: seq<Block>, ip: Inode, blk': seq<Block>, ip': Inode, s: nat)
  {
    forall t :: 0 <= t < NSLOT && (Addr(blk, ip, t) != 0 || (t != s && t != NDIRECT)) ==> Addr(blk', ip', t) == Addr(blk, ip, t)
  }

  /** The data blocks of a file kept their contents. */
  ghost predicate DataKept(blk: seq<Block>, ip: Inode, blk': seq<Block>)
  {
    |blk'| == |blk| && forall t :: 0 <= t < NSLOT && t != NDIRECT && 0 < Addr(blk, ip, t) < |blk| ==> blk'[Addr(blk, ip, t)] == blk[Addr(blk, ip, t)]
  }

  ghost predicate AllNoHoles(blk: seq<Block>, inodes: seq<Inode>)
  {
    forall k :: 0 <= k < |inodes| ==> NoHoles(blk, inodes[k])
  }

  /** Bits after the extra block got an owner. */
  lemma {:induction false} BitsOwned(blk: seq<Block>, sb: Superblock, owner: map<nat, Place>, a: nat, p: Place)
    requires SuperblockOk(sb, |blk|) && Bits(blk, sb, owner, {a})
    ensures Bits(blk, sb, owner[a := p], {})
  {
  }

  lemma {:induction false} AllocatedSlots(blk: seq<Block>, sb: Superblock, inodes: seq<Inode>, owner: map<nat, Place>, a: nat)
    requires SuperblockOk(sb, |blk|) && Owns(blk, sb, inodes, owner) && sb.datastart <= a < sb.size && a !in owner
    ensures forall k, t :: 0 <= k < |inodes| && 0 <= t < NSLOT ==> Addr(Allocated(blk, sb, a), inodes[k], t) == Addr(blk, inodes[k], t)
  {
    AllocatedOwns(blk, sb, inodes, owner, a);
    forall k, t | 0 <= k < |inodes| && 0 <= t < NSLOT
      ensures Addr(Allocated(blk, sb, a), inodes[k], t) == Addr(blk, inodes[k], t)
    {
      AddrFrame(blk, Allocated(blk, sb, a), inodes, owner, 0, NSLOT, NSLOT, k, t);
    }
  }

  /** Files whose mapped slots stay mapped get no holes. */
  lemma {:induction false} NoHolesGrow(blk: seq<Block>, inodes: seq<Inode>, blk': seq<Block>, inodes': seq<Inode>)
    requires AllNoHoles(blk, inodes) && |inodes'| == |inodes|
    requires forall k :: 0 <= k < |inodes| ==> inodes'[k].size == inodes[k].size
    requires forall k, t :: 0 <= k < |inodes| && 0 <= t < NSLOT && Addr(blk, inodes[k], t) != 0 ==> Addr(blk', inodes'[k], t) != 0
    ensures AllNoHoles(blk', inodes')
  {
    forall k | 0 <= k < |inodes|
      ensures NoHoles(blk', inodes'[k])
    {
      assert NoHoles(blk, inodes[k]);
    }
  }

  /** Everything bmap promises when it puts a fresh block into slot s <= NDIRECT of inode i. */
  lemma {:induction false} GrowDirect(blk: seq<Block>, sb: Superblock, inodes: seq<Inode>, owner: map<nat, Place>, i: nat, s: nat, a: nat)
    requires SuperblockOk(sb, |blk|) && Owns(blk, sb, inodes, owner) && Bits(blk, sb, owner, {}) && AllNoHoles(blk, inodes)
    requires i < |inodes| && s <= NDIRECT && inodes[i].addrs[s] == 0
    requires sb.datastart <= a < sb.size && a !in owner
    ensures
      var blk' := Allocated(blk, sb, a);
      var inodes' := inodes[i := inodes[i].(addrs := inodes[i].addrs[s := a])];
      var owner' := owner[a := Place(i, s)];
      && |blk'| == |blk|
      && Owns(blk', sb, inodes', owner') && Bits(blk', sb, owner', {}) && AllNoHoles(blk', inodes')
      && SlotsGrew(blk, inodes[i], blk', inodes'[i], s) && DataKept(blk, inodes[i], blk')
      && OthersKept(i, blk, inodes, owner, blk', inodes', owner')
  {
    hide Bits, Allocated, Placed, Recorded, AllNoHoles, Addr, SuperblockOk;
    var blk' := Allocated(blk, sb, a);
    var inodes' := inodes[i := inodes[i].(addrs := inodes[i].addrs[s := a])];
    var owner' := owner[a := Place(i, s)];
    AllocatedBits(blk, sb, owner, a);
    BitsOwned(blk', sb, owner, a, Place(i, s));
    AllocatedOwns(blk, sb, inodes, owner, a);
    AllocatedSlots(blk, sb, inodes, owner, a);
    AllocatedZero(blk, sb, a);
    AttachDirect(blk', sb, inodes, owner, i, s, a);
    SlotAddr(blk, inodes[i], s);
    NoHolesGrow(blk, inodes, blk', inodes');
    OwnedKept(blk, sb, inodes, owner, blk', i);
  }

  lemma {:induction false} AllocatedZero(blk: seq<Block>, sb: Superblock, a: nat)
    requires SuperblockOk(sb, |blk|) && a < sb.size
    ensures a < |blk| && Allocated(blk, sb, a)[a] == ZeroBlock()
  {
    hide Marked;
  }

  lemma {:induction false} SlotAddr(blk: seq<Block>, ip: Inode, s: nat)
    requires s <= NDIRECT
    ensures Addr(blk, ip, s) == ip.addrs[s]
  {
  }

  /** Blocks in use that stay as they are keep the data of every file. */
  lemma {:induction false} OwnedKept(blk: seq<Block>, sb: Superblock, inodes: seq<Inode>, owner: map<nat, Place>, blk': seq<Block>, i: nat)
    requires Owns(blk, sb, inodes, owner) && SameOwned(blk, blk', owner) && i < |inodes|
    ensures DataKept(blk, inodes[i], blk')
  {
    hide Addr;
    forall t | 0 <= t < NSLOT && 0 < Addr(blk, inodes[i], t) < |blk|
      ensures blk'[Addr(blk, inodes[i], t)] == blk[Addr(blk, inodes[i], t)]
    {
      assert Addr(blk, inodes[i], t) in owner;
    }
  }

  /** The bitmap is not among the data blocks. */
  lemma {:induction false} BitsDataWrite(blk: seq<Block>, sb: Superblock, owner: map<nat, Place>, extra: set<nat>, b: nat, data: Block)
    requires SuperblockOk(sb, |blk|) && Bits(blk, sb, owner, extra) && sb.datastart <= b < |blk|
    ensures Bits(blk[b := data], sb, owner, extra)
  {
    var blk' := blk[b := data];
    forall c | 0 <= c < sb.size
      ensures Used(blk', sb, c) == Used(blk, sb, c)
    {
      UsedAfterData(blk, sb, b, data, c);
    }
  }

  function Linked(blk: seq<Block>, ind: nat, j: nat, a: nat): (r: seq<Block>)
    requires ind < |blk| && j < NINDIRECT && a < TWO32
  {
    blk[ind := SetWord(blk[ind], j, a)]
  }

  /** And when it puts one into entry j of the indirect block. */
  lemma {:induction false} GrowIndirect(blk: seq<Block>, sb: Superblock, inodes: seq<Inode>, owner: map<nat, Place>, i: nat, j: nat, a: nat)
    requires SuperblockOk(sb, |blk|) && Owns(blk, sb, inodes, owner) && Bits(blk, sb, owner, {}) && AllNoHoles(blk, inodes)
    requires i < |inodes| && j < NINDIRECT && inodes[i].addrs[NDIRECT] != 0
    requires Addr(blk, inodes[i], NDIRECT + 1 + j) == 0
    requires sb.datastart <= a < sb.size && a !in owner
    ensures sb.datastart <= inodes[i].addrs[NDIRECT] < |blk|
    ensures
      var blk' := Linked(Allocated(blk, sb, a), inodes[i].addrs[NDIRECT], j, a);
      var owner' := owner[a := Place(i, NDIRECT + 1 + j)];
      && |blk'| == |blk|
      && Owns(blk', sb, inodes, owner') && Bits(blk', sb, owner', {}) && AllNoHoles(blk', inodes)
      && SlotsGrew(blk, inodes[i], blk', inodes[i], NDIRECT + 1 + j) && DataKept(blk, inodes[i], blk')
      && Addr(blk', inodes[i], NDIRECT + 1 + j) == a
      && OthersKept(i, blk, inodes, owner, blk', inodes, owner')
  {
    var ind := inodes[i].addrs[NDIRECT];
    assert Addr(blk, inodes[i], NDIRECT) == ind;
    assert ind in owner && owner[ind] == Place(i, NDIRECT);
    var blk1 := Allocated(blk, sb, a);
    var blk' := Linked(blk1, ind, j, a);
    var owner' := owner[a := Place(i, NDIRECT + 1 + j)];
    AllocatedBits(blk, sb, owner, a);
    BitsOwned(blk1, sb, owner, a, Place(i, NDIRECT + 1 + j));
    BitsDataWrite(blk1, sb, owner', {}, ind, SetWord(blk1[ind], j, a));
    AllocatedOwns(blk, sb, inodes, owner, a);
    AllocatedSlots(blk, sb, inodes, owner, a);
    AttachIndirect(blk1, sb, inodes, owner, i, j, a);
    hide Bits, Allocated, Placed, SetWord, Word;
    IndirectOthers(blk, sb, inodes, owner, blk', owner', i, a);
    NoHolesGrow(blk, inodes, blk', inodes);
    hide AllNoHoles;
    assert DataKept(blk, inodes[i], blk') by {
      forall t | 0 <= t < NSLOT && t != NDIRECT && 0 < Addr(blk, inodes[i], t) < |blk|
        ensures blk'[Addr(blk, inodes[i], t)] == blk[Addr(blk, inodes[i], t)]
      {
        assert owner[Addr(blk, inodes[i], t)] == Place(i, t);
      }
    }
  }

  /** An inode's own indirect block may change without a slot of another inode changing. */
  lemma {:induction false} IndirectOthers(blk: seq<Block>, sb: Superblock, inodes: seq<Inode>, owner: map<nat, Place>,
                                          blk': seq<Block>, owner': map<nat, Place>, i: nat, a: nat)
    requires Recorded(blk, inodes, owner, 0, 0, 0) && |blk'| == |blk| && i < |inodes|
    requires a !in owner && a in owner' && owner' == owner[a := owner'[a]]
    requires forall b :: b in owner && b < |blk| && b != inodes[i].addrs[NDIRECT] ==> blk'[b] == blk[b]
    requires inodes[i].addrs[NDIRECT] in owner && owner[inodes[i].addrs[NDIRECT]] == Place(i, NDIRECT)
    ensures OthersKept(i, blk, inodes, owner, blk', inodes, owner')
    ensures forall k, t :: 0 <= k < |inodes| && k != i && 0 <= t < NSLOT ==> Addr(blk', inodes[k], t) == Addr(blk, inodes[k], t)
  {
    forall k, t | 0 <= k < |inodes| && k != i && 0 <= t < NSLOT
      ensures Addr(blk', inodes[k], t) == Addr(blk, inodes[k], t)
    {
      assert Addr(blk, inodes[k], NDIRECT) == inodes[k].addrs[NDIRECT];
    }
  }

  /** o' is o without inode i's first direct slots and without the first entries of its indirect block. */
  ghost predicate Remaining(o: map<nat, Place>, o': map<nat, Place>, i: nat, direct: nat, entries: nat)
  {
    && (forall b :: b in o' <==> b in o && !(o[b].inum == i && (o[b].s < direct || NDIRECT < o[b].s <= NDIRECT + entries)))
    && (forall b :: b in o' ==> b in o && o'[b] == o[b])
  }

  lemma {:induction false} RemainingAll(o: map<nat, Place>, i: nat)
    ensures Remaining(o, o, i, 0, 0)
  {
  }

  /** The next direct slot is dealt with: its block was dropped, or it had none. */
  lemma {:induction false} NextDirect(blk: seq<Block>, sb: Superblock, inodes: seq<Inode>, o: map<nat, Place>, o1: map<nat, Place>, o2: map<nat, Place>, i: nat, s: nat)
    requires Remaining(o, o1, i, s, 0) && Placed(blk, sb, inodes, o1) && i < |inodes| && s < NDIRECT && sb.datastart > 0
    requires o2 == o1 - {Addr(blk, inodes[i], s)}
    requires Addr(blk, inodes[i], s) in o1 ==> o1[Addr(blk, inodes[i], s)] == Place(i, s)
    ensures Remaining(o, o2, i, s + 1, 0)
  {
    hide Addr;
  }

  lemma {:induction false} NextEntry(blk: seq<Block>, sb: Superblock, inodes: seq<Inode>, o: map<nat, Place>, o1: map<nat, Place>, o2: map<nat, Place>, i: nat, j: nat)
    requires Remaining(o, o1, i, NDIRECT, j) && Placed(blk, sb, inodes, o1) && i < |inodes| && j < NINDIRECT && sb.datastart > 0
    requires o2 == o1 - {Addr(blk, inodes[i], NDIRECT + 1 + j)}
    requires Addr(blk, inodes[i], NDIRECT + 1 + j) in o1 ==> o1[Addr(blk, inodes[i], NDIRECT + 1 + j)] == Place(i, NDIRECT + 1 + j)
    ensures Remaining(o, o2, i, NDIRECT, j + 1)
  {
    hide Addr;
  }

  /** o' is o without anything of inode i. */
  ghost predicate Gone(o: map<nat, Place>, o': map<nat, Place>, i: nat)
  {
    && (forall b :: b in o' <==> b in o && o[b].inum != i)
    && (forall b :: b in o' ==> b in o && o'[b] == o[b])
  }

  lemma {:induction false} NoIndirectLeft(blk: seq<Block>, sb: Superblock, inodes: seq<Inode>, o: map<nat, Place>, o': map<nat, Place>, i: nat)
    requires Remaining(o, o', i, NDIRECT, 0) && Placed(blk, sb, inodes, o') && i < |inodes| && sb.datastart > 0
    requires inodes[i].addrs[NDIRECT] == 0
    ensures Gone(o, o', i)
  {
    forall b | b in o'
      ensures o'[b].inum != i
    {
    }
  }

  lemma {:induction false} WhatRemains(o: map<nat, Place>, o': map<nat, Place>, i: nat, entries: nat, blk: seq<Block>, sb: Superblock, inodes: seq<Inode>)
    requires Remaining(o, o', i, NDIRECT, entries) && Placed(blk, sb, inodes, o')
    ensures forall b :: b in o' && o'[b].inum == i ==> o'[b].s >= NDIRECT
    ensures entries == NINDIRECT ==> forall b :: b in o' && o'[b].inum == i ==> o'[b].s <= NDIRECT
  {
    hide Addr;
  }

  lemma {:induction false} GoneWithIndirect(o: map<nat, Place>, o1: map<nat, Place>, o2: map<nat, Place>, ind: nat, i: nat,
                                            blk: seq<Block>, sb: Superblock, inodes: seq<Inode>)
    requires Remaining(o, o1, i, NDIRECT, 0) && Remaining(o1, o2, i, NDIRECT, NINDIRECT)
    requires ind in o2 && o2[ind] == Place(i, NDIRECT) && Placed(blk, sb, inodes, o2)
    ensures Gone(o, o2 - {ind}, i)
  {
    forall b | b in o2 - {ind}
      ensures o2[b].inum != i
    {
      if o2[b].inum == i {
        OnlyPlace(blk, sb, inodes, o2, b, ind);
      }
    }
  }

  /** Ownership does not look at sizes. */
  lemma {:induction false} OwnsResize(blk: seq<Block>, sb: Superblock, inodes: seq<Inode>, owner: map<nat, Place>, i: nat, n: nat)
    requires Owns(blk, sb, inodes, owner) && i < |inodes|
    ensures Owns(blk, sb, inodes[i := inodes[i].(size := n)], owner)
    ensures forall s :: 0 <= s < NSLOT ==> Addr(blk, inodes[i].(size := n), s) == Addr(blk, inodes[i], s)
  {
    var inodes' := inodes[i := inodes[i].(size := n)];
    assert forall k, s :: 0 <= k < |inodes| && 0 <= s < NSLOT ==> Addr(blk, inodes'[k], s) == Addr(blk, inodes[k], s);
    hide Addr;
  }

  /** With inode i in order, so is the whole table, and no other file's bytes changed. */
  lemma {:induction false} AllOthers(i: nat, blk: seq<Block>, sb: Superblock, inodes: seq<Inode>, owner: map<nat, Place>,
                                     blk': seq<Block>, inodes': seq<Inode>, owner': map<nat, Place>)
    requires OthersKept(i, blk, inodes, owner, blk', inodes', owner') && i < |inodes|
    requires Owns(blk, sb, inodes, owner) && AllNoHoles(blk, inodes) && NoHoles(blk', inodes'[i])
    ensures AllNoHoles(blk', inodes')
    ensures forall k :: 0 <= k < |inodes| && k != i ==>
      inodes[k].size == inodes'[k].size <= MAXFILE * BSIZE && Contents(blk', inodes'[k]) == Contents(blk, inodes[k])
  {
    SameTable(i, blk, inodes, owner, blk', inodes', owner');
    hide OthersKept, Contents, Addr;
    forall k | 0 <= k < |inodes| && k != i
      ensures NoHoles(blk', inodes'[k]) && NoHoles(blk, inodes[k]) && Contents(blk', inodes'[k]) == Contents(blk, inodes[k])
      ensures inodes[k].size == inodes'[k].size
    {
      assert NoHoles(blk, inodes[k]);
      OtherContents(i, blk, inodes, owner, blk', inodes', owner', k);
      assert |Contents(blk', inodes'[k])| == |Contents(blk, inodes[k])|;
    }
  }

  lemma {:induction false} SameTable(i: nat, blk: seq<Block>, inodes: seq<Inode>, owner: map<nat, Place>,
                                     blk': seq<Block>, inodes': seq<Inode>, owner': map<nat, Place>)
    requires OthersKept(i, blk, inodes, owner, blk', inodes', owner')
    ensures |inodes'| == |inodes| && |blk'| == |blk|
  {
  }

  // ---------------------------------------------------------------- reading and writing bytes

  predicate Mapped(blk: seq<Block>, ip: Inode, p: nat)
    requires p < MAXFILE * BSIZE
  {
    Addr(blk, ip, FileSlot(p / BSIZE)) != 0
  }

  /** The bytes off .. off+|piece| are now piece, and every other byte that was mapped is as it was. */
  ghost predicate Wrote(blk: seq<Block>, ip: Inode, blk': seq<Block>, ip': Inode, off: nat, piece: seq<Byte>)
  {
    forall p :: 0 <= p < MAXFILE * BSIZE && (off <= p < off + |piece| || Mapped(blk, ip, p)) ==>
      Mapped(blk', ip', p) && ByteAt(blk', ip', p) == if off <= p < off + |piece| then piece[p - off] else ByteAt(blk, ip, p)
  }

  lemma {:induction false} SameBlock(off: nat, m: nat, p: nat)
    requires 0 < m && off % BSIZE + m <= BSIZE
    ensures off <= p < off + m <==> p / BSIZE == off / BSIZE && off % BSIZE <= p % BSIZE < off % BSIZE + m
    ensures p / BSIZE == off / BSIZE ==> p - off == p % BSIZE - off % BSIZE
  {
  }

  function Patch(b: Block, o: nat, piece: seq<Byte>): (r: Block)
    requires o + |piece| <= BSIZE
  {
    b[..o] + piece + b[o + |piece|..]
  }

  /** Mapping a block changes no byte that was there. */
  lemma {:induction false} GrewBytes(blk: seq<Block>, ip: Inode, blk': seq<Block>, ip': Inode, s: nat)
    requires SlotsGrew(blk, ip, blk', ip', s) && DataKept(blk, ip, blk')
    ensures Wrote(blk, ip, blk', ip', 0, [])
  {
    forall p | 0 <= p < MAXFILE * BSIZE && Mapped(blk, ip, p)
      ensures Mapped(blk', ip', p) && ByteAt(blk', ip', p) == ByteAt(blk, ip, p)
    {
      hide Addr;
    }
  }

  /** Patching a mapped block changes exactly the patched bytes of the file. */
  lemma {:induction false} PatchBytes(blk: seq<Block>, sb: Superblock, inodes: seq<Inode>, owner: map<nat, Place>, i: nat, off: nat, piece: seq<Byte>)
    requires SuperblockOk(sb, |blk|) && Owns(blk, sb, inodes, owner) && i < |inodes|
    requires off / BSIZE < MAXFILE && 0 < |piece| && off % BSIZE + |piece| <= BSIZE
    requires Addr(blk, inodes[i], FileSlot(off / BSIZE)) != 0
    ensures Addr(blk, inodes[i], FileSlot(off / BSIZE)) < |blk|
    ensures
      var a := Addr(blk, inodes[i], FileSlot(off / BSIZE));
      Wrote(blk, inodes[i], blk[a := Patch(blk[a], off % BSIZE, piece)], inodes[i], off, piece)
  {
    var ip := inodes[i];
    var s := FileSlot(off / BSIZE);
    var a := Addr(blk, ip, s);
    assert a in owner && owner[a] == Place(i, s);
    var blk' := blk[a := Patch(blk[a], off % BSIZE, piece)];
    DataWriteOwns(blk, sb, inodes, owner, a, blk'[a]);
    hide Addr, SuperblockOk, Placed;
    forall p | 0 <= p < MAXFILE * BSIZE && (off <= p < off + |piece| || Mapped(blk, ip, p))
      ensures Mapped(blk', ip, p) && ByteAt(blk', ip, p) == if off <= p < off + |piece| then piece[p - off] else ByteAt(blk, ip, p)
    {
      SameBlock(off, |piece|, p);
      var t := FileSlot(p / BSIZE);
      if t != s {
        assert owner[Addr(blk, ip, t)] == Place(i, t);
      }
    }
  }

  lemma {:induction false} WroteJoin(blk0: seq<Block>, ip0: Inode, blk1: seq<Block>, ip1: Inode, blk2: seq<Block>, ip2: Inode,
                                     off: nat, s1: seq<Byte>, s2: seq<Byte>)
    requires Wrote(blk0, ip0, blk1, ip1, off, s1) && Wrote(blk1, ip1, blk2, ip2, off + |s1|, s2)
    ensures Wrote(blk0, ip0, blk2, ip2, off, s1 + s2)
  {
    hide Mapped, ByteAt;
  }

  lemma {:induction false} WroteNothing(blk: seq<Block>, ip: Inode, blk': seq<Block>, ip': Inode, off: nat)
    requires Wrote(blk, ip, blk', ip', 0, [])
    ensures Wrote(blk, ip, blk', ip', off, [])
  {
    hide Mapped, ByteAt;
  }

  /** c with s stored at off, extended if s reaches past its end. */
  function Overwrite(c: seq<Byte>, off: nat, s: seq<Byte>): (r: seq<Byte>)
    requires off <= |c|
    ensures |r| == if off + |s| > |c| then off + |s| else |c|
  {
    c[..off] + s + (if off + |s| < |c| then c[off + |s|..] else [])
  }

  lemma {:induction false} OverwriteNothing(c: seq<Byte>, off: nat)
    requires off <= |c|
    ensures Overwrite(c, off, []) == c
  {
  }

  lemma {:induction false} OverwrittenSlice(c: seq<Byte>, off: nat, s: seq<Byte>)
    requires off <= |c|
    ensures Overwrite(c, off, s)[off..off + |s|] == s
  {
  }

  /** What was written byte by byte, seen as the contents of the file with its new size. */
  lemma {:induction false} WroteContents(blk: seq<Block>, ip: Inode, blk': seq<Block>, ip': Inode, off: nat, s: seq<Byte>)
    requires NoHoles(blk, ip) && off <= ip.size && off + |s| <= MAXFILE * BSIZE && Wrote(blk, ip, blk', ip', off, s)
    requires ip'.size == if off + |s| > ip.size then off + |s| else ip.size
    ensures NoHoles(blk', ip') && Contents(blk', ip') == Overwrite(Contents(blk, ip), off, s)
  {
    forall p | 0 <= p < ip.size
      ensures Mapped(blk, ip, p)
    {
      assert p / BSIZE * BSIZE < ip.size;
    }
    forall bn | 0 <= bn < MAXFILE && bn * BSIZE < ip'.size
      ensures Addr(blk', ip', FileSlot(bn)) != 0
    {
      var p := bn * BSIZE;
      assert p / BSIZE == bn;
      assert Mapped(blk', ip', p);
    }
    hide Mapped, ByteAt, Addr;
    var c, c' := Contents(blk, ip), Contents(blk', ip');
    forall p | 0 <= p < ip'.size
      ensures c'[p] == Overwrite(c, off, s)[p]
    {
      assert c'[p] == ByteAt(blk', ip', p);
    }
  }

  // ---------------------------------------------------------------- how much a write logs

  /** The number of blocks that the bytes off .. off+n touch. */
  function BlocksTouched(off: nat, n: nat): (r: nat)
  {
    if n == 0 then 0 else (off + n - 1) / BSIZE - off / BSIZE + 1
  }

  function NextPiece(off: nat, left: nat): (m: nat)
    ensures left > 0 ==> 0 < m <= left && off % BSIZE + m <= BSIZE
    ensures m < left ==> (off + m) % BSIZE == 0
  {
    if left < BSIZE - off % BSIZE then left else BSIZE - off % BSIZE
  }

  lemma {:induction false} OneMoreBlock(off: nat, tot: nat, m: nat)
    requires 0 < m && (off + tot) % BSIZE + m <= BSIZE && (tot == 0 || (off + tot) % BSIZE == 0)
    ensures BlocksTouched(off, tot + m) == BlocksTouched(off, tot) + 1
  {
  }

  lemma {:induction false} BlocksMonotone(off: nat, k: nat, n: nat)
    requires k <= n
    ensures BlocksTouched(off, k) <= BlocksTouched(off, n)
  {
  }

  /** An unaligned offset within the file is in a block that is there already. */
  lemma {:induction false} UnalignedMapped(blk: seq<Block>, ip: Inode, off: nat)
    requires NoHoles(blk, ip) && off <= ip.size && off % BSIZE != 0
    ensures off / BSIZE < MAXFILE && Addr(blk, ip, FileSlot(off / BSIZE)) != 0
  {
    assert off / BSIZE * BSIZE < ip.size;
  }

  /** At most this many distinct blocks: data, their bitmap blocks, the indirect block, its bitmap block, the inode block. */
  function LogBound(off: nat, n: nat): (r: nat)
  {
    2 * BlocksTouched(off, n) + 3 - (if n > 0 && off % BSIZE != 0 then 1 else 0)
  }

  lemma {:induction false} UnionCount(a: set<nat>, b: set<nat>)
    ensures |a + b| <= |a| + |b|
  {
    assert a + b == a + (b - a);
    assert b == (b - a) + (b * a);
  }

  function BitmapBlockOf(sb: Superblock, b: nat): (r: nat)
  {
    sb.bmapstart + b / BPB
  }

  /** The indirect block as far as there is one, and its bitmap block if it is new. */
  ghost function IndirectLogged(sb: Superblock, ip: Inode, ip': Inode): (r: set<nat>)
    ensures |r| <= 2
  {
    var ind := ip'.addrs[NDIRECT];
    UnionCount({ind}, {BitmapBlockOf(sb, ind)});
    if ind == 0 then {} else if ip.addrs[NDIRECT] == 0 then {ind} + {BitmapBlockOf(sb, ind)} else {ind}
  }

  ghost predicate SameIndirect(ip: Inode, ip': Inode)
  {
    ip.addrs[NDIRECT] != 0 ==> ip'.addrs[NDIRECT] == ip.addrs[NDIRECT]
  }

  lemma {:induction false} IndirectSame(ip0: Inode, ip1: Inode, ip2: Inode)
    requires SameIndirect(ip0, ip1) && SameIndirect(ip1, ip2)
    ensures SameIndirect(ip0, ip2)
  {
  }

  lemma {:induction false} IndirectGrows(sb: Superblock, ip0: Inode, ip1: Inode, ip2: Inode)
    requires SameIndirect(ip0, ip1) && SameIndirect(ip1, ip2)
    ensures IndirectLogged(sb, ip0, ip1) <= IndirectLogged(sb, ip0, ip2) && IndirectLogged(sb, ip1, ip2) <= IndirectLogged(sb, ip0, ip2)
  {
  }

  /** Besides ind, at most two blocks for each of n, less u, were logged on top of l0. */
  ghost predicate LoggedWithin(l0: set<nat>, l: set<nat>, n: nat, u: nat, ind: set<nat>)
  {
    |l - l0 - ind| + u <= 2 * n
  }

  lemma {:induction false} LoggedStep(l0: set<nat>, l1: set<nat>, l: set<nat>, n: nat, u: nat, ind1: set<nat>, ind: set<nat>,
                                      more: set<nat>, dn: nat, du: nat)
    requires LoggedWithin(l0, l1, n, u, ind1) && ind1 <= ind && |more| + du <= 2 * dn
    requires l <= l1 + more + ind
    ensures LoggedWithin(l0, l, n + dn, u + du, ind)
  {
    UnionCount(l1 - l0 - ind1, more);
    SubsetCount(l - l0 - ind, (l1 - l0 - ind1) + more);
  }

  ghost function Unaligned(off: nat, tot: nat): (u: nat)
  {
    if tot > 0 && off % BSIZE != 0 then 1 else 0
  }

  /**
    From one state to the next every block that changed was log_written, and what was log_written
    lies from block lo on.
   */
  ghost predicate Tracked(lo: nat, blk: seq<Block>, logged: set<nat>, blk': seq<Block>, logged': set<nat>)
  {
    && |blk'| == |blk| && logged <= logged'
    && (forall b :: 0 <= b < |blk| && blk'[b] != blk[b] ==> b in logged' && b >= lo)
    && (forall b :: b in logged' && b !in logged ==> lo <= b < |blk|)
  }

  lemma {:induction false} TrackedTrans(lo: nat, blk: seq<Block>, logged: set<nat>, blk1: seq<Block>, logged1: set<nat>, blk2: seq<Block>, logged2: set<nat>)
    requires Tracked(lo, blk, logged, blk1, logged1) && Tracked(lo, blk1, logged1, blk2, logged2)
    ensures Tracked(lo, blk, logged, blk2, logged2)
  {
  }

  lemma {:induction false} TrackedSame(lo: nat, blk: seq<Block>, logged: set<nat>)
    ensures Tracked(lo, blk, logged, blk, logged)
  {
  }

  lemma {:induction false} TrackedWrite(lo: nat, blk: seq<Block>, logged: set<nat>, b: nat, data: Block)
    requires lo <= b < |blk|
    ensures Tracked(lo, blk, logged, blk[b := data], logged + {b})
  {
  }

  lemma {:induction false} TrackedLower(lo: nat, lo': nat, blk: seq<Block>, logged: set<nat>, blk': seq<Block>, logged': set<nat>)
    requires Tracked(lo, blk, logged, blk', logged') && lo' <= lo
    ensures Tracked(lo', blk, logged, blk', logged')
  {
  }

  /** Marking a block in the bitmap writes one bitmap block. */
  lemma {:induction false} MarkedIsWrite(blk: seq<Block>, sb: Superblock, b: nat, on: bool)
    requires SuperblockOk(sb, |blk|) && b < sb.size
    ensures sb.bmapstart <= BitmapBlockOf(sb, b) < |blk|
    ensures Marked(blk, sb, b, on) == blk[BitmapBlockOf(sb, b) := Marked(blk, sb, b, on)[BitmapBlockOf(sb, b)]]
  {
    hide SetBit;
    assert sb.bmapstart + b / BPB < sb.datastart;
  }

  lemma {:induction false} TrackedMarked(blk: seq<Block>, sb: Superblock, logged: set<nat>, b: nat, on: bool)
    requires SuperblockOk(sb, |blk|) && b < sb.size
    ensures Tracked(sb.bmapstart, blk, logged, Marked(blk, sb, b, on), logged + {BitmapBlockOf(sb, b)})
  {
    hide Marked, BitmapBlockOf, Tracked, SuperblockOk;
    MarkedIsWrite(blk, sb, b, on);
    TrackedWrite(sb.bmapstart, blk, logged, BitmapBlockOf(sb, b), Marked(blk, sb, b, on)[BitmapBlockOf(sb, b)]);
  }

  /** What balloc changes and logs. */
  lemma {:induction false} TrackedAllocated(blk: seq<Block>, sb: Superblock, logged: set<nat>, a: nat)
    requires SuperblockOk(sb, |blk|) && a < sb.size && a >= sb.bmapstart
    ensures Tracked(sb.bmapstart, blk, logged, Allocated(blk, sb, a), logged + {BitmapBlockOf(sb, a), a})
  {
    hide Marked, BitmapBlockOf, Tracked;
    var blk1, logged1 := Marked(blk, sb, a, true), logged + {BitmapBlockOf(sb, a)};
    TrackedMarked(blk, sb, logged, a, true);
    TrackedWrite(sb.bmapstart, blk1, logged1, a, ZeroBlock());
    TrackedTrans(sb.bmapstart, blk, logged, blk1, logged1, blk1[a := ZeroBlock()], logged1 + {a});
    assert logged1 + {a} == logged + {BitmapBlockOf(sb, a), a};
  }

  /** On disk inode i is what it is in memory, and every other inode is what it was. */
  ghost predicate DinodesKept(sb: Superblock, blk: seq<Block>, blk': seq<Block>, inodes: seq<Inode>, i: nat)
  {
    && |blk'| == |blk|
    && forall k :: 0 <= k < |inodes| ==> InodeBlock(sb, k) < |blk| && Dinode(blk', sb, k) == if k == i then inodes[i] else Dinode(blk, sb, k)
  }

  /** What is in memory is on disk. */
  ghost predicate Synced(sb: Superblock, blk: seq<Block>, inodes: seq<Inode>)
  {
    forall k :: 0 <= k < |inodes| ==> InodeBlock(sb, k) < |blk| && Dinode(blk, sb, k) == inodes[k]
  }

  /** The first n inodes as the disk has them. */
  function InodesOn(blk: seq<Block>, sb: Superblock, n: nat): (r: seq<Inode>)
    requires SuperblockOk(sb, |blk|) && InodeBlock(sb, n) < sb.bmapstart
    ensures |r| == n && Synced(sb, blk, r)
  {
    assert forall k :: 0 <= k < n ==> InodeBlock(sb, k) < |blk| by {
      forall k | 0 <= k < n
        ensures InodeBlock(sb, k) < |blk|
      {
        InodeBlockLow(sb, n, k);
      }
    }
    seq(n, k requires 0 <= k < n => Dinode(blk, sb, k))
  }

  /** A new disk, with every inode empty and the bitmap marking the reserved blocks, is in order. */
  lemma {:induction false} NewDisk(blk: seq<Block>, sb: Superblock, n: nat)
    requires SuperblockOk(sb, |blk|) && InodeBlock(sb, n) < sb.bmapstart
    requires forall b :: 0 <= b < sb.size ==> (Used(blk, sb, b) <==> b < sb.datastart)
    requires forall k :: 0 <= k < n ==> InodesOn(blk, sb, n)[k] == Inode(0, seq(NDIRECT + 1, _ => 0))
    ensures Owns(blk, sb, InodesOn(blk, sb, n), map[]) && Bits(blk, sb, map[], {}) && AllNoHoles(blk, InodesOn(blk, sb, n))
  {
    hide Used, InodesOn;
    var inodes := InodesOn(blk, sb, n);
    forall k, s | 0 <= k < |inodes| && 0 <= s < NSLOT
      ensures Addr(blk, inodes[k], s) == 0
    {
      assert inodes[k].addrs == seq(NDIRECT + 1, _ => 0);
    }
  }

  /** An operation on inode i that ends with iupdate leaves memory and disk in agreement. */
  lemma {:induction false} StaysSynced(sb: Superblock, i: nat, blk: seq<Block>, inodes: seq<Inode>, owner: map<nat, Place>,
                                       blk': seq<Block>, inodes': seq<Inode>, owner': map<nat, Place>)
    requires Synced(sb, blk, inodes) && DinodesKept(sb, blk, blk', inodes', i) && OthersKept(i, blk, inodes, owner, blk', inodes', owner')
    ensures Synced(sb, blk', inodes')
  {
    hide Dinode;
  }

  lemma {:induction false} InodeBlockLow(sb: Superblock, n: nat, i: nat)
    requires i < n && InodeBlock(sb, n) < sb.bmapstart
    ensures sb.inodestart <= InodeBlock(sb, i) < sb.bmapstart
  {
  }

  lemma {:induction false} CanStore(blk: seq<Block>, sb: Superblock, inodes: seq<Inode>, owner: map<nat, Place>, i: nat)
    requires SuperblockOk(sb, |blk|) && Owns(blk, sb, inodes, owner) && AllNoHoles(blk, inodes) && i < |inodes|
    ensures Storable(inodes[i])
  {
    assert NoHoles(blk, inodes[i]);
    forall j | 0 <= j <= NDIRECT
      ensures inodes[i].addrs[j] < TWO32
    {
      assert Addr(blk, inodes[i], j) == inodes[i].addrs[j];
    }
  }

  lemma {:induction false} UpdateKeeps(blk: seq<Block>, sb: Superblock, inodes: seq<Inode>, i: nat)
    requires SuperblockOk(sb, |blk|) && InodeBlock(sb, |inodes|) < sb.bmapstart && i < |inodes| && Storable(inodes[i]) && InodeBlock(sb, i) < |blk|
    ensures DinodesKept(sb, blk, WithDinode(blk, sb, i, inodes[i]), inodes, i)
  {
    hide Dinode, WithDinode;
    forall k | 0 <= k < |inodes|
      ensures InodeBlock(sb, k) < |blk| && Dinode(WithDinode(blk, sb, i, inodes[i]), sb, k) == if k == i then inodes[i] else Dinode(blk, sb, k)
    {
      InodeBlockLow(sb, |inodes|, k);
      DinodeAfterUpdate(blk, sb, i, inodes[i], k);
    }
  }

  /** Inode blocks are not read by files, nor by the bitmap. */
  lemma {:induction false} LowWrite(blk: seq<Block>, sb: Superblock, inodes: seq<Inode>, owner: map<nat, Place>, i: nat, b: nat, data: Block)
    requires SuperblockOk(sb, |blk|) && Owns(blk, sb, inodes, owner) && Bits(blk, sb, owner, {}) && AllNoHoles(blk, inodes)
    requires b < sb.bmapstart && i < |inodes|
    ensures
      var blk' := blk[b := data];
      && Owns(blk', sb, inodes, owner) && Bits(blk', sb, owner, {}) && AllNoHoles(blk', inodes)
      && OthersKept(i, blk, inodes, owner, blk', inodes, owner)
      && forall k :: 0 <= k < |inodes| ==> inodes[k].size <= MAXFILE * BSIZE && Contents(blk', inodes[k]) == Contents(blk, inodes[k])
  {
    hide Bits, Contents, Addr, AllNoHoles, OthersKept, Recorded;
    var blk' := blk[b := data];
    LowOwned(blk, sb, inodes, owner, i, b, data);
    LowOwned(blk, sb, inodes, owner, |inodes|, b, data);
    LowBits(blk, sb, owner, b, data);
    OwnsFrame(blk, blk', sb, inodes, owner);
    hide SuperblockOk, Placed;
    SameContents(blk, sb, inodes, owner, blk');
  }

  lemma {:induction false} LowOwned(blk: seq<Block>, sb: Superblock, inodes: seq<Inode>, owner: map<nat, Place>, i: nat, b: nat, data: Block)
    requires SuperblockOk(sb, |blk|) && Placed(blk, sb, inodes, owner) && b < sb.bmapstart
    ensures SameOwned(blk, blk[b := data], owner) && OthersKept(i, blk, inodes, owner, blk[b := data], inodes, owner)
  {
    hide Addr;
  }

  lemma {:induction false} LowBits(blk: seq<Block>, sb: Superblock, owner: map<nat, Place>, b: nat, data: Block)
    requires SuperblockOk(sb, |blk|) && Bits(blk, sb, owner, {}) && b < sb.bmapstart
    ensures Bits(blk[b := data], sb, owner, {})
  {
    var blk' := blk[b := data];
    forall c | 0 <= c < sb.size
      ensures Used(blk', sb, c) == Used(blk, sb, c)
    {
      UsedAfterLow(blk, sb, b, data, c);
    }
    hide Used;
  }

  lemma {:induction false} SameContents(blk: seq<Block>, sb: Superblock, inodes: seq<Inode>, owner: map<nat, Place>, blk': seq<Block>)
    requires Owns(blk, sb, inodes, owner) && AllNoHoles(blk, inodes) && OthersKept(|inodes|, blk, inodes, owner, blk', inodes, owner)
    ensures AllNoHoles(blk', inodes)
    ensures forall k :: 0 <= k < |inodes| ==> inodes[k].size <= MAXFILE * BSIZE && Contents(blk', inodes[k]) == Contents(blk, inodes[k])
  {
    hide Placed, OthersKept, Contents, Addr;
    forall k | 0 <= k < |inodes|
      ensures NoHoles(blk', inodes[k]) && NoHoles(blk, inodes[k]) && Contents(blk', inodes[k]) == Contents(blk, inodes[k])
    {
      assert NoHoles(blk, inodes[k]);
      OtherContents(|inodes|, blk, inodes, owner, blk', inodes, owner, k);
    }
  }

  lemma {:induction false} SameBits(blk: seq<Block>, blk': seq<Block>, sb: Superblock, owner: map<nat, Place>)
    requires SuperblockOk(sb, |blk|) && |blk'| == |blk| && Bits(blk, sb, owner, {}) && Bits(blk', sb, owner, {})
    ensures forall b :: 0 <= b < sb.size ==> Used(blk', sb, b) == Used(blk, sb, b)
  {
    hide Used;
  }

  /** Until iupdate, no inode changes on disk. */
  lemma {:induction false} KeptAfterTracked(sb: Superblock, blk: seq<Block>, logged: set<nat>, blk1: seq<Block>, logged1: set<nat>, blk2: seq<Block>, inodes: seq<Inode>, i: nat)
    requires Tracked(sb.bmapstart, blk, logged, blk1, logged1) && DinodesKept(sb, blk1, blk2, inodes, i) && InodeBlock(sb, |inodes|) < sb.bmapstart
    ensures DinodesKept(sb, blk, blk2, inodes, i)
  {
    forall k | 0 <= k < |inodes|
      ensures InodeBlock(sb, k) < |blk| && Dinode(blk1, sb, k) == Dinode(blk, sb, k)
    {
      InodeBlockLow(sb, |inodes|, k);
    }
    hide Dinode;
  }

  /** The file system's state between two steps of a write. */
  datatype State = State(blk: seq<Block>, inodes: seq<Inode>, owner: map<nat, Place>, logged: set<nat>)

  /** From s0 to s, bytes were stored at off of file i and nothing else happened to any file. */
  ghost predicate Stored(sb: Superblock, s0: State, s: State, i: nat, off: nat, bytes: seq<Byte>)
  {
    && OthersKept(i, s0.blk, s0.inodes, s0.owner, s.blk, s.inodes, s.owner) && i < |s0.inodes|
    && s.inodes[i].size == s0.inodes[i].size && SameIndirect(s0.inodes[i], s.inodes[i])
    && Tracked(sb.bmapstart, s0.blk, s0.logged, s.blk, s.logged)
    && Wrote(s0.blk, s0.inodes[i], s.blk, s.inodes[i], off, bytes)
    && LoggedWithin(s0.logged, s.logged, BlocksTouched(off, |bytes|), Unaligned(off, |bytes|), IndirectLogged(sb, s0.inodes[i], s.inodes[i]))
  }

  /** The same of one turn of the loop, which logs block a and, if that was new, its bitmap block. */
  ghost predicate StoredBlock(sb: Superblock, s0: State, s: State, i: nat, off: nat, piece: seq<Byte>, a: nat, isNew: bool)
  {
    && OthersKept(i, s0.blk, s0.inodes, s0.owner, s.blk, s.inodes, s.owner) && i < |s0.inodes|
    && s.inodes[i].size == s0.inodes[i].size && SameIndirect(s0.inodes[i], s.inodes[i])
    && Tracked(sb.bmapstart, s0.blk, s0.logged, s.blk, s.logged)
    && Wrote(s0.blk, s0.inodes[i], s.blk, s.inodes[i], off, if a == 0 then [] else piece)
    && s.logged <= s0.logged + (if a == 0 then {} else if isNew then {a, BitmapBlockOf(sb, a)} else {a}) + IndirectLogged(sb, s0.inodes[i], s.inodes[i])
  }

  lemma {:induction false} MoreLogged(sb: Superblock, s0: State, s: State, i: nat, off: nat, piece: seq<Byte>, a: nat, b: bool, c: bool)
    requires StoredBlock(sb, s0, s, i, off, piece, a, b) && (b ==> c)
    ensures StoredBlock(sb, s0, s, i, off, piece, a, c)
  {
    hide Wrote, OthersKept, IndirectLogged, Tracked;
  }

  /** What bmap did, as a turn that stored nothing yet. */
  lemma {:induction false} MappedBlock(sb: Superblock, s0: State, s: State, i: nat, off: nat, a: nat)
    requires i < |s0.inodes| && i < |s.inodes| && off / BSIZE < MAXFILE
    requires OthersKept(i, s0.blk, s0.inodes, s0.owner, s.blk, s.inodes, s.owner) && s.inodes[i].size == s0.inodes[i].size
    requires SameIndirect(s0.inodes[i], s.inodes[i]) && Tracked(sb.bmapstart, s0.blk, s0.logged, s.blk, s.logged)
    requires Wrote(s0.blk, s0.inodes[i], s.blk, s.inodes[i], off, [])
    requires off / BSIZE >= NDIRECT && a != 0 ==> s.inodes[i].addrs[NDIRECT] != 0
    requires
      var was, ind := Addr(s0.blk, s0.inodes[i], FileSlot(off / BSIZE)), s.inodes[i].addrs[NDIRECT];
      s.logged == s0.logged
        + (if was == 0 && a != 0 then {BitmapBlockOf(sb, a), a} else {})
        + (if was == 0 && a != 0 && off / BSIZE >= NDIRECT then {ind} else {})
        + (if s0.inodes[i].addrs[NDIRECT] == 0 && ind != 0 then {BitmapBlockOf(sb, ind), ind} else {})
    ensures StoredBlock(sb, s0, s, i, off, [], a, Addr(s0.blk, s0.inodes[i], FileSlot(off / BSIZE)) == 0)
  {
    hide Wrote, OthersKept, Tracked, Addr, BitmapBlockOf;
  }

  lemma {:induction false} PatchedBlock(sb: Superblock, s0: State, s1: State, s: State, i: nat, off: nat, piece: seq<Byte>, a: nat, isNew: bool)
    requires StoredBlock(sb, s0, s1, i, off, [], a, isNew) && a != 0 && s == s1.(blk := s.blk, logged := s1.logged + {a})
    requires i < |s1.inodes| && OthersKept(i, s1.blk, s1.inodes, s1.owner, s.blk, s1.inodes, s1.owner)
    requires Tracked(sb.bmapstart, s1.blk, s1.logged, s.blk, s.logged) && Wrote(s1.blk, s1.inodes[i], s.blk, s1.inodes[i], off, piece)
    ensures StoredBlock(sb, s0, s, i, off, piece, a, isNew)
  {
    hide Wrote, OthersKept, Tracked, BitmapBlockOf, IndirectLogged, SameIndirect;
    TrackedTrans(sb.bmapstart, s0.blk, s0.logged, s1.blk, s1.logged, s.blk, s.logged);
    WroteJoin(s0.blk, s0.inodes[i], s1.blk, s1.inodes[i], s.blk, s.inodes[i], off, [], piece);
    OthersKeptTrans(i, s0.blk, s0.inodes, s0.owner, s1.blk, s1.inodes, s1.owner, s.blk, s.inodes, s.owner);
    assert [] + piece == piece;
  }

  lemma {:induction false} NothingStored(sb: Superblock, s0: State, s: State, i: nat, off: nat, piece: seq<Byte>, isNew: bool)
    requires StoredBlock(sb, s0, s, i, off, [], 0, isNew)
    ensures StoredBlock(sb, s0, s, i, off, piece, 0, isNew)
  {
    hide Wrote, OthersKept, Tracked, IndirectLogged;
  }

  lemma {:induction false} StoredNothing(sb: Superblock, s: State, i: nat, off: nat)
    requires i < |s.inodes|
    ensures Stored(sb, s, s, i, off, [])
  {
    hide Mapped, ByteAt;
    TrackedSame(sb.bmapstart, s.blk, s.logged);
    assert s.logged - s.logged == {};
  }

  /** One more turn; its block was new unless it is the first one and unaligned. */
  lemma {:induction false} StoredMore(sb: Superblock, s0: State, s1: State, s2: State, i: nat, off: nat, bytes: seq<Byte>, piece: seq<Byte>, a: nat)
    requires Stored(sb, s0, s1, i, off, bytes)
    requires StoredBlock(sb, s1, s2, i, off + |bytes|, piece, a, |bytes| > 0 || off % BSIZE == 0)
    requires 0 < |piece| && (off + |bytes|) % BSIZE + |piece| <= BSIZE && (|bytes| == 0 || (off + |bytes|) % BSIZE == 0)
    ensures Stored(sb, s0, s2, i, off, if a == 0 then bytes else bytes + piece)
  {
    hide Wrote, OthersKept, LoggedWithin, BlocksTouched, IndirectLogged, Tracked, BitmapBlockOf, SameIndirect;
    SameTable(i, s0.blk, s0.inodes, s0.owner, s1.blk, s1.inodes, s1.owner);
    SameTable(i, s1.blk, s1.inodes, s1.owner, s2.blk, s2.inodes, s2.owner);
    IndirectSame(s0.inodes[i], s1.inodes[i], s2.inodes[i]);
    TrackedTrans(sb.bmapstart, s0.blk, s0.logged, s1.blk, s1.logged, s2.blk, s2.logged);
    OthersKeptTrans(i, s0.blk, s0.inodes, s0.owner, s1.blk, s1.inodes, s1.owner, s2.blk, s2.inodes, s2.owner);
    var ip0, ip1, ip2 := s0.inodes[i], s1.inodes[i], s2.inodes[i];
    WroteJoin(s0.blk, ip0, s1.blk, ip1, s2.blk, ip2, off, bytes, if a == 0 then [] else piece);
    IndirectGrows(sb, ip0, ip1, ip2);
    assert bytes + [] == bytes;
    if a == 0 {
      LoggedStep(s0.logged, s1.logged, s2.logged, BlocksTouched(off, |bytes|), Unaligned(off, |bytes|),
                 IndirectLogged(sb, ip0, ip1), IndirectLogged(sb, ip0, ip2), {}, 0, 0);
    } else {
      LoggedMore(sb, s0.logged, s1.logged, s2.logged, off, |bytes|, |piece|, IndirectLogged(sb, ip0, ip1), IndirectLogged(sb, ip0, ip2), a);
    }
  }

  lemma {:induction false} LoggedMore(sb: Superblock, l0: set<nat>, l1: set<nat>, l: set<nat>, off: nat, tot: nat, m: nat, ind1: set<nat>, ind: set<nat>, a: nat)
    requires LoggedWithin(l0, l1, BlocksTouched(off, tot), Unaligned(off, tot), ind1) && ind1 <= ind
    requires 0 < m && (off + tot) % BSIZE + m <= BSIZE && (tot == 0 || (off + tot) % BSIZE == 0)
    requires l <= l1 + (if tot > 0 || off % BSIZE == 0 then {a, BitmapBlockOf(sb, a)} else {a}) + ind
    ensures LoggedWithin(l0, l, BlocksTouched(off, tot + m), Unaligned(off, tot + m), ind)
  {
    OneMoreBlock(off, tot, m);
    hide LoggedWithin, BlocksTouched, BitmapBlockOf;
    var more := if tot > 0 || off % BSIZE == 0 then {a, BitmapBlockOf(sb, a)} else {a};
    LoggedStep(l0, l1, l, BlocksTouched(off, tot), Unaligned(off, tot), ind1, ind, more, 1, if tot > 0 || off % BSIZE == 0 then 0 else 1);
  }

  lemma {:induction false} GrewIndirect(blk: seq<Block>, ip: Inode, blk': seq<Block>, ip': Inode, s: nat)
    requires SlotsGrew(blk, ip, blk', ip', s) && s < NSLOT
    ensures SameIndirect(ip, ip')
    ensures s > NDIRECT && Addr(blk', ip', s) != 0 ==> ip'.addrs[NDIRECT] != 0
  {
    assert Addr(blk, ip, NDIRECT) == ip.addrs[NDIRECT];
  }

  class FileSystem {
    const sb: Superblock
    var blk: seq<Block>
    var inodes: seq<Inode>
    var logged: set<nat>
    ghost var owner: map<nat, Place>

    /** Ownership: no block in two slots, and the bitmap says exactly which blocks are taken. */
    ghost predicate Valid()
      reads this
    {
      && SuperblockOk(sb, |blk|)
      && Owns(blk, sb, inodes, owner)
      && Bits(blk, sb, owner, {})
      && AllNoHoles(blk, inodes)
      && InodeBlock(sb, |inodes|) < sb.bmapstart
    }

    /** A disk that is in order, mounted: the inodes are read from their blocks. */
    constructor (sb: Superblock, blk: seq<Block>, n: nat, ghost owner: map<nat, Place>)
      requires SuperblockOk(sb, |blk|) && InodeBlock(sb, n) < sb.bmapstart
      requires Owns(blk, sb, InodesOn(blk, sb, n), owner) && Bits(blk, sb, owner, {}) && AllNoHoles(blk, InodesOn(blk, sb, n))
      ensures Valid() && Synced(sb, this.blk, inodes) && this.sb == sb && this.blk == blk && |inodes| == n && logged == {} && this.owner == owner
    {
      hide Owns, Bits, AllNoHoles, Dinode;
      this.sb := sb;
      this.blk := blk;
      inodes := InodesOn(blk, sb, n);
      logged := {};
      this.owner := owner;
    }

    function BitmapBlock(b: nat): (r: nat)
    {
      BitmapBlockOf(sb, b)
    }

    ghost function Now(): (s: State)
      reads this
    {
      State(blk, inodes, owner, logged)
    }

    /** balloc's search: the first block whose bit is clear. */
    method FindFree() returns (r: Option<nat>)
      requires SuperblockOk(sb, |blk|)
      ensures r.None? ==> forall b :: 0 <= b < sb.size ==> Used(blk, sb, b)
      ensures r.Some? ==> r.value < sb.size && !Used(blk, sb, r.value)
      ensures r.Some? ==> forall b :: 0 <= b < r.value ==> Used(blk, sb, b)
    {
      hide Used, TestBit;
      var b := 0;
      while b < sb.size
        invariant b % BPB == 0
        invariant forall c :: 0 <= c < b && c < sb.size ==> Used(blk, sb, c)
      {
        r := ScanBlock(b);
        if r.Some? {
          return;
        }
        b := b + BPB;
      }
      return None;
    }

    /** The search in one bitmap block. */
    method ScanBlock(b: nat) returns (r: Option<nat>)
      requires SuperblockOk(sb, |blk|) && b % BPB == 0 && b < sb.size
      ensures r.None? ==> forall c :: b <= c < b + BPB && c < sb.size ==> Used(blk, sb, c)
      ensures r.Some? ==> b <= r.value < sb.size && !Used(blk, sb, r.value)
      ensures r.Some? ==> forall c :: b <= c < r.value ==> Used(blk, sb, c)
    {
      hide Used, TestBit;
      var bi := 0;
      while bi < BPB && b + bi < sb.size
        invariant 0 <= bi <= BPB
        invariant forall c :: b <= c < b + bi && c < sb.size ==> Used(blk, sb, c)
      {
        BitOf(blk, sb, b, bi);
        if !TestBit(blk[sb.bmapstart + b / BPB], bi) {
          return Some(b + bi);
        }
        bi := bi + 1;
      }
      return None;
    }

    /**
      balloc: the first free block, marked and zeroed; 0 when there is none.
     */
    method Balloc() returns (a: nat)
      requires SuperblockOk(sb, |blk|) && Bits(blk, sb, owner, {})
      modifies this`blk, this`logged
      ensures a == 0 ==> blk == old(blk) && logged == old(logged) && forall b :: 0 <= b < sb.size ==> Used(blk, sb, b)
      ensures a != 0 ==> sb.datastart <= a < sb.size && a !in owner && blk == Allocated(old(blk), sb, a)
      ensures a != 0 ==> logged == old(logged) + {BitmapBlock(a), a}
      ensures a != 0 ==> forall b :: 0 <= b < a ==> Used(old(blk), sb, b)
      ensures Tracked(sb.bmapstart, old(blk), old(logged), blk, logged)
    {
      hide Bit, SetBit, TestBit, Tracked;
      TrackedSame(sb.bmapstart, blk, logged);
      var r := FindFree();
      if r.None? {
        return 0;
      }
      a := r.value;
      TrackedAllocated(blk, sb, logged, a);
      blk := Marked(blk, sb, a, true);
      logged := logged + {sb.bmapstart + a / BPB};
      blk := blk[a := ZeroBlock()];
      logged := logged + {a};
      assert logged == old(logged) + {BitmapBlock(a), a};
    }

    /** bfree: clears the block's bit; freeing a free block panics. */
    method Bfree(b: nat) returns (ok: bool)
      requires SuperblockOk(sb, |blk|) && b < sb.size
      modifies this`blk, this`logged
      ensures ok <==> Used(old(blk), sb, b)
      ensures !ok ==> blk == old(blk) && logged == old(logged)
      ensures ok ==> blk == Marked(old(blk), sb, b, false) && logged == old(logged) + {BitmapBlock(b)}
      ensures Tracked(sb.bmapstart, old(blk), old(logged), blk, logged)
    {
      TrackedSame(sb.bmapstart, blk, logged);
      TrackedMarked(blk, sb, logged, b, false);
      hide Tracked;
      var bi := b % BPB;
      if !TestBit(blk[sb.bmapstart + b / BPB], bi) {
        return false;
      }
      blk := Marked(blk, sb, b, false);
      logged := logged + {sb.bmapstart + b / BPB};
      return true;
    }

    /** bmap's way with an inode's own addresses: what is in the slot, or a fresh block put there. */
    method MapSlot(i: nat, s: nat) returns (a: nat)
      requires Valid() && i < |inodes| && s <= NDIRECT
      modifies this`blk, this`inodes, this`owner, this`logged
      ensures Valid() && |inodes| == old(|inodes|) && |blk| == old(|blk|)
      ensures inodes == old(inodes)[i := old(inodes[i]).(addrs := old(inodes[i].addrs)[s := a])]
      ensures old(inodes[i].addrs[s]) != 0 || a == 0 ==>
        blk == old(blk) && inodes == old(inodes) && owner == old(owner) && logged == old(logged)
      ensures a == 0 ==> forall b :: 0 <= b < sb.size ==> Used(blk, sb, b)
      ensures old(inodes[i].addrs[s]) == 0 && a != 0 ==> logged == old(logged) + {BitmapBlock(a), a} && a < |blk| && blk[a] == ZeroBlock()
      ensures SlotsGrew(old(blk), old(inodes[i]), blk, inodes[i], s) && DataKept(old(blk), old(inodes[i]), blk)
      ensures OthersKept(i, old(blk), old(inodes), old(owner), blk, inodes, owner)
      ensures Tracked(sb.bmapstart, old(blk), old(logged), blk, logged)
    {
      hide Owns, Bits, AllNoHoles, Used, Tracked;
      TrackedSame(sb.bmapstart, blk, logged);
      a := inodes[i].addrs[s];
      assert inodes[i].addrs[s := a] == inodes[i].addrs;
      if a == 0 {
        a := Balloc();
        if a == 0 {
          return;
        }
        GrowDirect(old(blk), sb, inodes, owner, i, s, a);
        inodes := inodes[i := inodes[i].(addrs := inodes[i].addrs[s := a])];
        owner := owner[a := Place(i, s)];
      }
    }

    /** bmap's way with the indirect block: the entry j of it, or a fresh block put there. */
    method MapEntry(i: nat, j: nat) returns (a: nat)
      requires Valid() && i < |inodes| && j < NINDIRECT && inodes[i].addrs[NDIRECT] != 0
      modifies this`blk, this`owner, this`logged
      ensures Valid() && |blk| == old(|blk|)
      ensures a == Addr(blk, inodes[i], NDIRECT + 1 + j)
      ensures old(Addr(blk, inodes[i], NDIRECT + 1 + j)) != 0 || a == 0 ==> blk == old(blk) && owner == old(owner) && logged == old(logged)
      ensures a == 0 ==> forall b :: 0 <= b < sb.size ==> Used(blk, sb, b)
      ensures old(Addr(blk, inodes[i], NDIRECT + 1 + j)) == 0 && a != 0 ==>
        logged == old(logged) + {BitmapBlock(a), a} + {inodes[i].addrs[NDIRECT]}
      ensures SlotsGrew(old(blk), inodes[i], blk, inodes[i], NDIRECT + 1 + j) && DataKept(old(blk), inodes[i], blk)
      ensures OthersKept(i, old(blk), inodes, old(owner), blk, inodes, owner)
      ensures Tracked(sb.bmapstart, old(blk), old(logged), blk, logged)
    {
      hide Bits, AllNoHoles, Used, SetWord, Owns, Addr, Word, OthersKept, SlotsGrew, DataKept, Tracked;
      TrackedSame(sb.bmapstart, blk, logged);
      var ind := inodes[i].addrs[NDIRECT];
      DirectAddr(blk, sb, inodes, owner, i, NDIRECT);
      EntryAddr(blk, sb, inodes[i], j);
      Same(blk, inodes, owner, i);
      a := Word(blk[ind], j);
      if a == 0 {
        a := Balloc();
        if a != 0 {
          GrowIndirect(old(blk), sb, inodes, owner, i, j, a);
          ghost var blk1, logged1 := blk, logged;
          TrackedWrite(sb.bmapstart, blk, logged, ind, SetWord(blk[ind], j, a));
          TrackedTrans(sb.bmapstart, old(blk), old(logged), blk1, logged1, blk[ind := SetWord(blk[ind], j, a)], logged + {ind});
          blk := blk[ind := SetWord(blk[ind], j, a)];
          owner := owner[a := Place(i, NDIRECT + 1 + j)];
          logged := logged + {ind};
        }
      }
    }

    /**
      bmap: the address of the bn-th block of a file, allocated (with the indirect block, if
      that is needed) when it is not there yet; 0 when the disk is full.
     */
    method Bmap(i: nat, bn: nat) returns (a: nat)
      requires Valid() && i < |inodes| && bn < MAXFILE
      modifies this`blk, this`inodes, this`owner, this`logged
      ensures Valid() && |inodes| == old(|inodes|) && |blk| == old(|blk|)
      ensures a == Addr(blk, inodes[i], FileSlot(bn)) && inodes[i].size == old(inodes[i].size)
      ensures old(Addr(blk, inodes[i], FileSlot(bn))) != 0 ==>
        blk == old(blk) && inodes == old(inodes) && owner == old(owner) && logged == old(logged)
      ensures a == 0 ==> forall b :: 0 <= b < sb.size ==> Used(blk, sb, b)
      ensures SlotsGrew(old(blk), old(inodes[i]), blk, inodes[i], FileSlot(bn)) && DataKept(old(blk), old(inodes[i]), blk)
      ensures OthersKept(i, old(blk), old(inodes), old(owner), blk, inodes, owner)
      ensures Tracked(sb.bmapstart, old(blk), old(logged), blk, logged)
      ensures logged == old(logged)
        + (if old(Addr(blk, inodes[i], FileSlot(bn))) == 0 && a != 0 then {BitmapBlock(a), a} else {})
        + (if old(Addr(blk, inodes[i], FileSlot(bn))) == 0 && a != 0 && bn >= NDIRECT then {inodes[i].addrs[NDIRECT]} else {})
        + (if old(inodes[i].addrs[NDIRECT]) == 0 && inodes[i].addrs[NDIRECT] != 0
           then {BitmapBlock(inodes[i].addrs[NDIRECT]), inodes[i].addrs[NDIRECT]} else {})
    {
      hide Valid, Used, Word, Tracked;
      if bn < NDIRECT {
        a := MapSlot(i, bn);
        return;
      }
      var ind := MapSlot(i, NDIRECT);
      if ind == 0 {
        return 0;
      }
      ghost var blk1, inodes1, owner1, logged1 := blk, inodes, owner, logged;
      a := MapEntry(i, bn - NDIRECT);
      TrackedTrans(sb.bmapstart, old(blk), old(logged), blk1, logged1, blk, logged);
      OthersKeptTrans(i, old(blk), old(inodes), old(owner), blk1, inodes1, owner1, blk, inodes, owner);
    }

    /** iupdate: the in-memory inode goes to its place in its inode block, and nothing else changes. */
    method Iupdate(i: nat)
      requires Valid() && i < |inodes|
      modifies this`blk, this`logged
      ensures Valid() && |blk| == old(|blk|) && logged == old(logged) + {InodeBlock(sb, i)}
      ensures DinodesKept(sb, old(blk), blk, inodes, i)
      ensures Tracked(sb.inodestart, old(blk), old(logged), blk, logged)
      ensures forall k :: 0 <= k < |inodes| ==> inodes[k].size <= MAXFILE * BSIZE && Contents(blk, inodes[k]) == Contents(old(blk), inodes[k])
      ensures OthersKept(i, old(blk), inodes, owner, blk, inodes, owner)
    {
      hide Owns, Bits, AllNoHoles, Contents, OthersKept, Tracked, PutInode, DinodesKept;
      ghost var b, ip := InodeBlock(sb, i), inodes[i];
      CanStore(blk, sb, inodes, owner, i);
      InodeBlockLow(sb, |inodes|, i);
      LowWrite(blk, sb, inodes, owner, i, b, PutInode(blk[b], i % IPB, ip));
      TrackedWrite(sb.inodestart, blk, logged, b, PutInode(blk[b], i % IPB, ip));
      UpdateKeeps(blk, sb, inodes, i);
      blk := WithDinode(blk, sb, i, inodes[i]);
      logged := logged + {sb.inodestart + i / IPB};
    }

    /** One turn of itrunc's first loop. */
    method FreeDirect(i: nat, s: nat, ghost o: map<nat, Place>) returns (ok: bool)
      requires SuperblockOk(sb, |blk|) && Owns(blk, sb, inodes, owner) && Bits(blk, sb, owner, {}) && i < |inodes|
      requires s < NDIRECT && Remaining(o, owner, i, s, 0)
      modifies this`blk, this`inodes, this`owner, this`logged
      ensures ok && |blk| == old(|blk|) && |inodes| == old(|inodes|)
      ensures Owns(blk, sb, inodes, owner) && Bits(blk, sb, owner, {}) && Remaining(o, owner, i, s + 1, 0)
      ensures inodes == old(inodes)[i := old(inodes[i]).(addrs := old(inodes[i].addrs)[s := 0])]
      ensures OthersKept(i, old(blk), old(inodes), old(owner), blk, inodes, owner)
      ensures Tracked(sb.bmapstart, old(blk), old(logged), blk, logged)
    {
      hide Recorded, Placed, Bits, Used, Marked, SuperblockOk, Remaining, OthersKept, Addr, Tracked;
      TrackedSame(sb.bmapstart, blk, logged);
      DirectAddr(blk, sb, inodes, owner, i, s);
      ghost var a := inodes[i].addrs[s];
      if inodes[i].addrs[s] != 0 {
        FreedDirect(blk, sb, inodes, owner, i, s);
        ok := Bfree(inodes[i].addrs[s]);
        owner := owner - {a};
        inodes := inodes[i := inodes[i].(addrs := inodes[i].addrs[s := 0])];
      } else {
        EmptySlot(blk, sb, inodes, owner, i, 0, 0);
        assert inodes[i].addrs[s := 0] == inodes[i].addrs;
        ok := true;
      }
      NextDirect(old(blk), sb, old(inodes), o, old(owner), owner, i, s);
    }

    /** itrunc's loop over the direct slots. */
    method FreeDirects(i: nat) returns (ok: bool)
      requires SuperblockOk(sb, |blk|) && Owns(blk, sb, inodes, owner) && Bits(blk, sb, owner, {}) && i < |inodes|
      modifies this`blk, this`inodes, this`owner, this`logged
      ensures ok && |blk| == old(|blk|) && |inodes| == old(|inodes|)
      ensures Owns(blk, sb, inodes, owner) && Bits(blk, sb, owner, {})
      ensures forall t :: 0 <= t < NDIRECT ==> inodes[i].addrs[t] == 0
      ensures inodes[i].addrs[NDIRECT] == old(inodes[i].addrs[NDIRECT])
      ensures Remaining(old(owner), owner, i, NDIRECT, 0)
      ensures OthersKept(i, old(blk), old(inodes), old(owner), blk, inodes, owner)
      ensures Tracked(sb.bmapstart, old(blk), old(logged), blk, logged)
    {
      hide Owns, Bits, SuperblockOk, OthersKept, Tracked;
      Same(blk, inodes, owner, i);
      RemainingAll(owner, i);
      hide Remaining;
      TrackedSame(sb.bmapstart, blk, logged);
      ok := true;
      var s := 0;
      while s < NDIRECT
        invariant 0 <= s <= NDIRECT && ok && |blk| == old(|blk|) && |inodes| == old(|inodes|)
        invariant Owns(blk, sb, inodes, owner) && Bits(blk, sb, owner, {})
        invariant forall t :: 0 <= t < s ==> inodes[i].addrs[t] == 0
        invariant inodes[i].addrs[NDIRECT] == old(inodes[i].addrs[NDIRECT])
        invariant Remaining(old(owner), owner, i, s, 0)
        invariant OthersKept(i, old(blk), old(inodes), old(owner), blk, inodes, owner)
        invariant Tracked(sb.bmapstart, old(blk), old(logged), blk, logged)
      {
        ghost var blk0, inodes0, owner0, logged0 := blk, inodes, owner, logged;
        ok := FreeDirect(i, s, old(owner));
        TrackedTrans(sb.bmapstart, old(blk), old(logged), blk0, logged0, blk, logged);
        OthersKeptTrans(i, old(blk), old(inodes), old(owner), blk0, inodes0, owner0, blk, inodes, owner);
        s := s + 1;
      }
    }

    /** One turn of itrunc's second loop; the entry is not cleared. */
    method FreeEntry(i: nat, j: nat, ghost o: map<nat, Place>) returns (ok: bool)
      requires SuperblockOk(sb, |blk|) && i < |inodes| && j < NINDIRECT && 0 < inodes[i].addrs[NDIRECT] < |blk|
      requires Recorded(blk, inodes, owner, i, NDIRECT + 1, NDIRECT + 1 + j) && Placed(blk, sb, inodes, owner) && Bits(blk, sb, owner, {})
      requires Remaining(o, owner, i, NDIRECT, j)
      modifies this`blk, this`owner, this`logged
      ensures ok && |blk| == old(|blk|)
      ensures Recorded(blk, inodes, owner, i, NDIRECT + 1, NDIRECT + 2 + j) && Placed(blk, sb, inodes, owner) && Bits(blk, sb, owner, {})
      ensures Remaining(o, owner, i, NDIRECT, j + 1)
      ensures OthersKept(i, old(blk), inodes, old(owner), blk, inodes, owner)
      ensures Tracked(sb.bmapstart, old(blk), old(logged), blk, logged)
    {
      hide Bits, Used, Marked, SuperblockOk, Remaining, Addr, Recorded, Placed, OthersKept, Word, Tracked;
      TrackedSame(sb.bmapstart, blk, logged);
      EntryAddr(blk, sb, inodes[i], j);
      var a := Word(blk[inodes[i].addrs[NDIRECT]], j);
      if a != 0 {
        FreedEntry(blk, sb, inodes, owner, i, j);
        ok := Bfree(a);
        owner := owner - {a};
      } else {
        EmptySlot(blk, sb, inodes, owner, i, NDIRECT + 1, NDIRECT + 1 + j);
        ok := true;
      }
      NextEntry(old(blk), sb, inodes, o, old(owner), owner, i, j);
    }

    /** itrunc's loop over the entries of the indirect block. */
    method FreeEntries(i: nat) returns (ok: bool)
      requires SuperblockOk(sb, |blk|) && Owns(blk, sb, inodes, owner) && Bits(blk, sb, owner, {})
      requires i < |inodes| && 0 < inodes[i].addrs[NDIRECT] < |blk|
      requires forall b :: b in owner && owner[b].inum == i ==> owner[b].s >= NDIRECT
      modifies this`blk, this`owner, this`logged
      ensures ok && |blk| == old(|blk|)
      ensures Recorded(blk, inodes, owner, i, NDIRECT + 1, NSLOT) && Placed(blk, sb, inodes, owner) && Bits(blk, sb, owner, {})
      ensures Remaining(old(owner), owner, i, NDIRECT, NINDIRECT)
      ensures OthersKept(i, old(blk), inodes, old(owner), blk, inodes, owner)
      ensures Tracked(sb.bmapstart, old(blk), old(logged), blk, logged)
    {
      hide Recorded, Placed, Bits, SuperblockOk, OthersKept, Remaining, Tracked;
      TrackedSame(sb.bmapstart, blk, logged);
      Same(blk, inodes, owner, i);
      EntriesStart(blk, sb, inodes, owner, i);
      ok := true;
      var j := 0;
      while j < NINDIRECT
        invariant 0 <= j <= NINDIRECT && ok && |blk| == old(|blk|)
        invariant Recorded(blk, inodes, owner, i, NDIRECT + 1, NDIRECT + 1 + j) && Placed(blk, sb, inodes, owner) && Bits(blk, sb, owner, {})
        invariant Remaining(old(owner), owner, i, NDIRECT, j)
        invariant OthersKept(i, old(blk), inodes, old(owner), blk, inodes, owner)
        invariant Tracked(sb.bmapstart, old(blk), old(logged), blk, logged)
      {
        ghost var blk0, owner0, logged0 := blk, owner, logged;
        ok := FreeEntry(i, j, old(owner));
        TrackedTrans(sb.bmapstart, old(blk), old(logged), blk0, logged0, blk, logged);
        OthersKeptTrans(i, old(blk), inodes, old(owner), blk0, inodes, owner0, blk, inodes, owner);
        j := j + 1;
      }
    }

    /**
      itrunc: frees exactly the inode's blocks, without ever finding one free already, and
      leaves an empty file, on disk too.
     */
    method Itrunc(i: nat) returns (ok: bool)
      requires Valid() && i < |inodes|
      modifies this`blk, this`inodes, this`owner, this`logged
      ensures ok && Valid() && |inodes| == old(|inodes|)
      ensures inodes[i] == Inode(0, seq(NDIRECT + 1, _ => 0)) && DinodesKept(sb, old(blk), blk, inodes, i)
      ensures forall b :: b in owner <==> b in old(owner) && old(owner)[b].inum != i
      ensures forall k :: 0 <= k < |inodes| && k != i ==> inodes[k].size <= MAXFILE * BSIZE && Contents(blk, inodes[k]) == old(Contents(blk, inodes[k]))
      ensures OthersKept(i, old(blk), old(inodes), old(owner), blk, inodes, owner)
      ensures Tracked(sb.inodestart, old(blk), old(logged), blk, logged)
    {
      hide Recorded, Bits, Contents, OthersKept, Remaining, Addr, Tracked, DinodesKept;
      ghost var s0 := Now();
      ok := FreeBlocks(i);
      hide Owns, SuperblockOk;
      OwnsResize(blk, sb, inodes, owner, i, 0);
      OthersKeptSlot(i, s0.blk, s0.inodes, s0.owner, blk, inodes, owner, inodes[i].(size := 0));
      inodes := inodes[i := inodes[i].(size := 0)];
      AllOthers(i, s0.blk, sb, s0.inodes, s0.owner, blk, inodes, owner);
      ghost var s2 := Now();
      Iupdate(i);
      KeptAfterTracked(sb, s0.blk, s0.logged, s2.blk, s2.logged, blk, inodes, i);
      TrackedLower(sb.bmapstart, sb.inodestart, s0.blk, s0.logged, s2.blk, s2.logged);
      TrackedTrans(sb.inodestart, s0.blk, s0.logged, s2.blk, s2.logged, blk, logged);
      OthersKeptTrans(i, s0.blk, s0.inodes, s0.owner, s2.blk, s2.inodes, s2.owner, blk, inodes, owner);
      assert inodes[i].addrs == seq(NDIRECT + 1, _ => 0);
    }

    /** The two loops of itrunc. */
    method FreeBlocks(i: nat) returns (ok: bool)
      requires Valid() && i < |inodes|
      modifies this`blk, this`inodes, this`owner, this`logged
      ensures ok && |inodes| == old(|inodes|) && |blk| == old(|blk|)
      ensures Owns(blk, sb, inodes, owner) && Bits(blk, sb, owner, {}) && Gone(old(owner), owner, i)
      ensures inodes[i].addrs == seq(NDIRECT + 1, _ => 0)
      ensures OthersKept(i, old(blk), old(inodes), old(owner), blk, inodes, owner)
      ensures Tracked(sb.bmapstart, old(blk), old(logged), blk, logged)
    {
      ghost var o, blk0, inodes0, logged0 := owner, blk, inodes, logged;
      hide Recorded, Bits, OthersKept, Remaining, Addr, Tracked;
      ok := FreeDirects(i);
      if inodes[i].addrs[NDIRECT] != 0 {
        ghost var blk1, inodes1, owner1, logged1 := blk, inodes, owner, logged;
        ok := FreeIndirect(i, o);
        OthersKeptTrans(i, blk0, inodes0, o, blk1, inodes1, owner1, blk, inodes, owner);
        TrackedTrans(sb.bmapstart, blk0, logged0, blk1, logged1, blk, logged);
      } else {
        NoIndirectLeft(blk, sb, inodes, o, owner, i);
      }
    }

    /** The indirect part of itrunc: its entries' blocks, then the indirect block itself. */
    method FreeIndirect(i: nat, ghost o: map<nat, Place>) returns (ok: bool)
      requires SuperblockOk(sb, |blk|) && Owns(blk, sb, inodes, owner) && Bits(blk, sb, owner, {})
      requires i < |inodes| && inodes[i].addrs[NDIRECT] != 0 && Remaining(o, owner, i, NDIRECT, 0)
      modifies this`blk, this`inodes, this`owner, this`logged
      ensures ok && |blk| == old(|blk|)
      ensures inodes == old(inodes)[i := old(inodes[i]).(addrs := old(inodes[i].addrs)[NDIRECT := 0])]
      ensures Owns(blk, sb, inodes, owner) && Bits(blk, sb, owner, {}) && Gone(o, owner, i)
      ensures OthersKept(i, old(blk), old(inodes), old(owner), blk, inodes, owner)
      ensures Tracked(sb.bmapstart, old(blk), old(logged), blk, logged)
    {
      hide Recorded, Placed, Bits, SuperblockOk, OthersKept, Addr, Used, Marked, Remaining, Gone, Tracked;
      DirectAddr(blk, sb, inodes, owner, i, NDIRECT);
      WhatRemains(o, owner, i, 0, blk, sb, inodes);
      ok := FreeEntries(i);
      ghost var blk1, owner1, logged1 := blk, owner, logged;
      WhatRemains(old(owner), owner, i, NINDIRECT, blk, sb, inodes);
      FreedIndirect(blk, sb, inodes, owner, i);
      GoneWithIndirect(o, old(owner), owner, inodes[i].addrs[NDIRECT], i, blk, sb, inodes);
      ok := Bfree(inodes[i].addrs[NDIRECT]);
      owner := owner - {inodes[i].addrs[NDIRECT]};
      inodes := inodes[i := inodes[i].(addrs := inodes[i].addrs[NDIRECT := 0])];
      OthersKeptTrans(i, old(blk), old(inodes), old(owner), blk1, old(inodes), owner1, blk, inodes, owner);
      TrackedTrans(sb.bmapstart, old(blk), old(logged), blk1, logged1, blk, logged);
    }

    /** The copy into a mapped block, and its log_write. */
    method PatchBlock(i: nat, off: nat, piece: seq<Byte>, a: nat)
      requires Valid() && i < |inodes| && off / BSIZE < MAXFILE && 0 < |piece| && off % BSIZE + |piece| <= BSIZE
      requires a == Addr(blk, inodes[i], FileSlot(off / BSIZE)) != 0
      modifies this`blk, this`logged
      ensures Valid() && |blk| == old(|blk|) && logged == old(logged) + {a}
      ensures Wrote(old(blk), inodes[i], blk, inodes[i], off, piece)
      ensures OthersKept(i, old(blk), inodes, owner, blk, inodes, owner)
      ensures Tracked(sb.bmapstart, old(blk), old(logged), blk, logged)
    {
      hide Wrote, OthersKept, Bits, Owns, AllNoHoles, Addr, Patch, Tracked;
      DataAddr(blk, sb, inodes, owner, i, FileSlot(off / BSIZE));
      TrackedWrite(sb.bmapstart, blk, logged, a, Patch(blk[a], off % BSIZE, piece));
      PatchBytes(blk, sb, inodes, owner, i, off, piece);
      PatchKeeps(blk, sb, inodes, owner, i, off, Patch(blk[a], off % BSIZE, piece));
      blk := blk[a := Patch(blk[a], off % BSIZE, piece)];
      logged := logged + {a};
    }

    /** One turn of writei's loop: map the block, patch it, log it. */
    method WriteBlock(i: nat, off: nat, piece: seq<Byte>) returns (a: nat)
      requires Valid() && i < |inodes| && off / BSIZE < MAXFILE && 0 < |piece| && off % BSIZE + |piece| <= BSIZE
      modifies this`blk, this`inodes, this`owner, this`logged
      ensures Valid() && |inodes| == old(|inodes|) && |blk| == old(|blk|) && inodes[i].size == old(inodes[i].size)
      ensures a == 0 ==> forall b :: 0 <= b < sb.size ==> Used(blk, sb, b)
      ensures old(Addr(blk, inodes[i], FileSlot(off / BSIZE))) != 0 ==> a != 0
      ensures StoredBlock(sb, old(Now()), Now(), i, off, piece, a, old(Addr(blk, inodes[i], FileSlot(off / BSIZE))) == 0)
    {
      hide Valid, Used, Wrote, OthersKept, SlotsGrew, DataKept, Addr, BitmapBlockOf, Tracked, StoredBlock;
      a := Bmap(i, off / BSIZE);
      ghost var s1 := Now();
      GrewBytes(old(blk), old(inodes[i]), blk, inodes[i], FileSlot(off / BSIZE));
      WroteNothing(old(blk), old(inodes[i]), blk, inodes[i], off);
      GrewIndirect(old(blk), old(inodes[i]), blk, inodes[i], FileSlot(off / BSIZE));
      MappedBlock(sb, old(Now()), s1, i, off, a);
      if a != 0 {
        PatchBlock(i, off, piece, a);
        PatchedBlock(sb, old(Now()), s1, Now(), i, off, piece, a, old(Addr(blk, inodes[i], FileSlot(off / BSIZE))) == 0);
      } else {
        NothingStored(sb, old(Now()), s1, i, off, piece, old(Addr(blk, inodes[i], FileSlot(off / BSIZE))) == 0);
      }
    }

    /**
      readi (to a kernel address): exactly the slice of the file's bytes that the arguments name,
      cut at the end of the file; nothing past the end, and nothing when off + n wraps around.
     */
    method Readi(i: nat, off: nat, n: nat) returns (data: seq<Byte>)
      requires Valid() && i < |inodes| && off < TWO32 && n < TWO32
      modifies this`blk, this`inodes, this`owner, this`logged
      ensures Valid() && blk == old(blk) && inodes == old(inodes) && owner == old(owner) && logged == old(logged)
      ensures inodes[i].size <= MAXFILE * BSIZE
      ensures
        var c := Contents(blk, inodes[i]);
        data == if off > |c| || off + n >= TWO32 then [] else c[off..if off + n < |c| then off + n else |c|]
    {
      hide AllNoHoles, Owns, Bits, Contents;
      Unchanged(i, sb, Now());
      hide Valid;
      WrapsAround(off, n);
      if off > inodes[i].size || (off + n) % TWO32 < off {
        return [];
      }
      var end := if off + n > inodes[i].size then inodes[i].size else off + n;
      data := [];
      ghost var c := Contents(blk, inodes[i]);
      var o := off;
      while o < end
        invariant off <= o <= end
        invariant Valid() && blk == old(blk) && inodes == old(inodes) && owner == old(owner) && logged == old(logged)
        invariant data == c[off..o]
      {
        var piece := ReadBlock(i, o, end - o);
        if piece == [] {
          break;
        }
        assert c[off..o] + c[o..o + |piece|] == c[off..o + |piece|];
        data := data + piece;
        o := o + |piece|;
      }
    }

    /** One turn of readi's loop; an empty piece stands for bmap's 0. */
    method ReadBlock(i: nat, o: nat, left: nat) returns (piece: seq<Byte>)
      requires Valid() && i < |inodes| && left > 0 && o + left <= inodes[i].size <= MAXFILE * BSIZE
      modifies this`blk, this`inodes, this`owner, this`logged
      ensures Valid() && blk == old(blk) && inodes == old(inodes) && owner == old(owner) && logged == old(logged)
      ensures 0 < |piece| <= left && piece == Contents(blk, inodes[i])[o..o + |piece|]
    {
      assert NoHoles(blk, inodes[i]);
      hide Owns, Bits, AllNoHoles, Contents, SlotsGrew, DataKept, OthersKept, NoHoles;
      var m := NextPiece(o, left);
      ReadBlockBytes(blk, sb, inodes, owner, i, o, m);
      var a := Bmap(i, o / BSIZE);
      if a == 0 {
        return [];
      }
      return blk[a][o % BSIZE..o % BSIZE + m];
    }

    /** Blocks before the end of the file are there, and so is the first one when the offset is unaligned. */
    lemma {:induction false} FirstMapped(i: nat, off: nat, tot: nat)
      requires Valid() && i < |inodes| && off + tot < MAXFILE * BSIZE && (tot == 0 ==> off <= inodes[i].size)
      ensures (off + tot) / BSIZE < MAXFILE
      ensures (tot == 0 && off % BSIZE != 0) || off + tot < inodes[i].size ==> Addr(blk, inodes[i], FileSlot((off + tot) / BSIZE)) != 0
    {
      hide Owns, Bits, Addr;
      assert NoHoles(blk, inodes[i]);
      if tot == 0 && off % BSIZE != 0 {
        UnalignedMapped(blk, inodes[i], off);
      } else {
        assert (off + tot) / BSIZE * BSIZE <= off + tot;
      }
    }

    /** One turn of the loop, seen from the start s0 of the write. */
    method WriteTurn(i: nat, off: nat, src: seq<Byte>, tot: nat, ghost s0: State) returns (a: nat, m: nat)
      requires Valid() && i < |inodes| && off <= inodes[i].size && off + |src| <= MAXFILE * BSIZE && tot < |src|
      requires (tot == 0 || (off + tot) % BSIZE == 0) && Stored(sb, s0, Now(), i, off, src[..tot])
      modifies this`blk, this`inodes, this`owner, this`logged
      ensures Valid() && |inodes| == old(|inodes|) && |blk| == old(|blk|) && inodes[i].size == old(inodes[i].size)
      ensures 0 < m <= |src| - tot && (m < |src| - tot ==> (off + tot + m) % BSIZE == 0)
      ensures a == 0 ==> off + tot >= inodes[i].size && forall b :: 0 <= b < sb.size ==> Used(blk, sb, b)
      ensures Stored(sb, s0, Now(), i, off, if a == 0 then src[..tot] else src[..tot + m])
    {
      hide Valid, Addr, Used, Stored, StoredBlock;
      FirstMapped(i, off, tot);
      m := NextPiece(off + tot, |src| - tot);
      ghost var s1 := Now();
      a := WriteBlock(i, off + tot, src[tot..tot + m]);
      MoreLogged(sb, s1, Now(), i, off + tot, src[tot..tot + m], a, Addr(s1.blk, s1.inodes[i], FileSlot((off + tot) / BSIZE)) == 0, tot > 0 || off % BSIZE == 0);
      assert |src[..tot]| == tot;
      StoredMore(sb, s0, s1, Now(), i, off, src[..tot], src[tot..tot + m], a);
      assert src[..tot] + src[tot..tot + m] == src[..tot + m];
    }

    /** writei's loop, with the bytes counted as they are stored. */
    method WriteLoop(i: nat, off: nat, src: seq<Byte>) returns (tot: nat)
      requires Valid() && i < |inodes| && off <= inodes[i].size && off + |src| <= MAXFILE * BSIZE
      modifies this`blk, this`inodes, this`owner, this`logged
      ensures Valid() && |inodes| == old(|inodes|) && |blk| == old(|blk|) && inodes[i].size == old(inodes[i].size) && tot <= |src|
      ensures tot < |src| ==> off + tot >= inodes[i].size && (tot == 0 || (off + tot) % BSIZE == 0)
      ensures tot < |src| ==> forall b :: 0 <= b < sb.size ==> Used(blk, sb, b)
      ensures Stored(sb, old(Now()), Now(), i, off, src[..tot])
    {
      hide Valid, Used, Stored;
      StoredNothing(sb, Now(), i, off);
      assert src[..0] == [];
      tot := 0;
      while tot < |src|
        invariant 0 <= tot <= |src|
        invariant Valid() && |inodes| == old(|inodes|) && |blk| == old(|blk|) && inodes[i].size == old(inodes[i].size)
        invariant tot == 0 || tot == |src| || (off + tot) % BSIZE == 0
        invariant Stored(sb, old(Now()), Now(), i, off, src[..tot])
      {
        var a, m := WriteTurn(i, off, src, tot, old(Now()));
        if a == 0 {
          break;
        }
        tot := tot + m;
      }
    }

    /**
      writei (from a kernel address): -1 and nothing changed when the range is refused, and
      otherwise the first tot bytes of src stored at off, the file extended if they reach past its
      end, tot short of n only on a full disk, no byte of any other file changed, and no more
      distinct blocks logged than LogBound says of tot bytes.
     */
    method Writei(i: nat, off: nat, src: seq<Byte>) returns (r: int)
      requires Valid() && i < |inodes| && off < TWO32 && |src| < TWO32
      modifies this`blk, this`inodes, this`owner, this`logged
      ensures Valid() && |inodes| == old(|inodes|) && |blk| == old(|blk|)
      ensures old(inodes[i].size) <= MAXFILE * BSIZE && inodes[i].size <= MAXFILE * BSIZE
      ensures r == -1 <==> off > old(inodes[i].size) || off + |src| > MAXFILE * BSIZE
      ensures r == -1 ==> blk == old(blk) && inodes == old(inodes) && owner == old(owner) && logged == old(logged)
      ensures r != -1 ==> 0 <= r <= |src| && Contents(blk, inodes[i]) == Overwrite(old(Contents(blk, inodes[i])), off, src[..r])
      ensures 0 <= r < |src| ==> off + r >= old(inodes[i].size) && (r == 0 || (off + r) % BSIZE == 0)
      ensures 0 <= r < |src| ==> forall b :: 0 <= b < sb.size ==> Used(blk, sb, b)
      ensures r != -1 ==> DinodesKept(sb, old(blk), blk, inodes, i)
      ensures Tracked(sb.inodestart, old(blk), old(logged), blk, logged)
      ensures OthersKept(i, old(blk), old(inodes), old(owner), blk, inodes, owner)
      ensures forall k :: 0 <= k < |inodes| && k != i ==> inodes[k].size <= MAXFILE * BSIZE && Contents(blk, inodes[k]) == old(Contents(blk, inodes[k]))
      ensures |logged - old(logged)| <= LogBound(off, |src|) && (r != -1 ==> |logged - old(logged)| <= LogBound(off, r))
    {
      hide Contents, OthersKept, Bits, Owns, AllNoHoles, Stored, Used, LogBound, Overwrite, Tracked, DinodesKept;
      TrackedSame(sb.inodestart, blk, logged);
      Unchanged(i, sb, Now());
      if off > inodes[i].size || (off + |src|) % TWO32 < off {
        return -1;
      }
      if off + |src| > MAXFILE * BSIZE {
        return -1;
      }
      var tot := WriteLoop(i, off, src);
      WriteDone(sb, old(Now()), Now(), i, off, src, tot);
      StoredTracked(sb, old(Now()), Now(), i, off, src[..tot]);
      inodes := inodes[i := inodes[i].(size := if off + tot > inodes[i].size then off + tot else inodes[i].size)];
      ghost var s2 := Now();
      Iupdate(i);
      SameBits(s2.blk, blk, sb, owner);
      KeptAfterTracked(sb, old(blk), old(logged), s2.blk, s2.logged, blk, inodes, i);
      TrackedLower(sb.bmapstart, sb.inodestart, old(blk), old(logged), s2.blk, s2.logged);
      TrackedTrans(sb.inodestart, old(blk), old(logged), s2.blk, s2.logged, blk, logged);
      OthersKeptTrans(i, old(blk), old(inodes), old(owner), s2.blk, s2.inodes, s2.owner, blk, inodes, owner);
      r := tot;
    }

    /** writei, then readi of the same range: what was stored is what is read. */
    method WriteThenRead(i: nat, off: nat, src: seq<Byte>) returns (r: int, data: seq<Byte>)
      requires Valid() && i < |inodes| && off < TWO32 && |src| < TWO32
      modifies this`blk, this`inodes, this`owner, this`logged
      ensures Valid() && |inodes| == old(|inodes|)
      ensures r == -1 <==> off > old(inodes[i].size) || off + |src| > MAXFILE * BSIZE
      ensures r != -1 ==> 0 <= r <= |src| && data == src[..r]
    {
      hide Valid, Contents, OthersKept, Used, LogBound, Overwrite, Tracked, DinodesKept;
      data := [];
      SizeBound(i);
      ghost var c := Contents(blk, inodes[i]);
      r := Writei(i, off, src);
      if r != -1 {
        OverwrittenSlice(c, off, src[..r]);
        data := Readi(i, off, r);
      }
    }

    lemma {:induction false} SizeBound(i: nat)
      requires Valid() && i < |inodes|
      ensures inodes[i].size <= MAXFILE * BSIZE
    {
      hide Owns, Bits;
      assert NoHoles(blk, inodes[i]);
    }
  }

  lemma {:induction false} StoredTracked(sb: Superblock, s0: State, s: State, i: nat, off: nat, bytes: seq<Byte>)
    requires Stored(sb, s0, s, i, off, bytes)
    ensures Tracked(sb.bmapstart, s0.blk, s0.logged, s.blk, s.logged)
  {
    hide Tracked, Wrote, OthersKept;
  }

  /** off + n < off in 32 bits */
  lemma {:induction false} WrapsAround(off: nat, n: nat)
    requires off < TWO32 && n < TWO32
    ensures (off + n) % TWO32 < off <==> off + n >= TWO32
  {
  }

  lemma {:induction false} Unchanged(i: nat, sb: Superblock, s: State)
    requires AllNoHoles(s.blk, s.inodes) && i < |s.inodes|
    ensures OthersKept(i, s.blk, s.inodes, s.owner, s.blk, s.inodes, s.owner)
    ensures forall k :: 0 <= k < |s.inodes| ==> s.inodes[k].size <= MAXFILE * BSIZE
  {
    assert forall k :: 0 <= k < |s.inodes| ==> NoHoles(s.blk, s.inodes[k]);
  }

  /** What a whole write did, once the size is brought up to date and the inode's block b is logged. */
  lemma {:induction false} WriteDone(sb: Superblock, s0: State, s: State, i: nat, off: nat, src: seq<Byte>, tot: nat)
    requires Owns(s0.blk, sb, s0.inodes, s0.owner) && AllNoHoles(s0.blk, s0.inodes) && i < |s0.inodes| && tot <= |src|
    requires Owns(s.blk, sb, s.inodes, s.owner) && i < |s.inodes|
    requires off <= s0.inodes[i].size && off + |src| <= MAXFILE * BSIZE && Stored(sb, s0, s, i, off, src[..tot])
    ensures s0.inodes[i].size <= MAXFILE * BSIZE
    ensures
      var inodes' := s.inodes[i := s.inodes[i].(size := if off + tot > s.inodes[i].size then off + tot else s.inodes[i].size)];
      && Owns(s.blk, sb, inodes', s.owner) && AllNoHoles(s.blk, inodes') && inodes'[i].size <= MAXFILE * BSIZE
      && Contents(s.blk, inodes'[i]) == Overwrite(Contents(s0.blk, s0.inodes[i]), off, src[..tot])
      && OthersKept(i, s0.blk, s0.inodes, s0.owner, s.blk, inodes', s.owner)
      && (forall k :: 0 <= k < |inodes'| && k != i ==>
        s0.inodes[k].size == inodes'[k].size <= MAXFILE * BSIZE && Contents(s.blk, inodes'[k]) == Contents(s0.blk, s0.inodes[k]))
    ensures forall b :: |s.logged + {b} - s0.logged| <= LogBound(off, tot) && |s.logged + {b} - s0.logged| <= LogBound(off, |src|)
  {
    var n := if off + tot > s.inodes[i].size then off + tot else s.inodes[i].size;
    var ip := s.inodes[i].(size := n);
    assert NoHoles(s0.blk, s0.inodes[i]);
    hide AllNoHoles, NoHoles, Owns, OthersKept, Wrote, Contents, Addr;
    OwnsResize(s.blk, sb, s.inodes, s.owner, i, n);
    OthersKeptSlot(i, s0.blk, s0.inodes, s0.owner, s.blk, s.inodes, s.owner, ip);
    WroteResized(s0.blk, s0.inodes[i], s.blk, s.inodes[i], off, src[..tot], n);
    assert |src[..tot]| == tot;
    WroteContents(s0.blk, s0.inodes[i], s.blk, ip, off, src[..tot]);
    AllOthers(i, s0.blk, sb, s0.inodes, s0.owner, s.blk, s.inodes[i := ip], s.owner);
    forall b
      ensures |s.logged + {b} - s0.logged| <= LogBound(off, tot) && |s.logged + {b} - s0.logged| <= LogBound(off, |src|)
    {
      TotalLogged(s0.logged, s.logged, off, tot, tot, IndirectLogged(sb, s0.inodes[i], s.inodes[i]), b);
      TotalLogged(s0.logged, s.logged, off, tot, |src|, IndirectLogged(sb, s0.inodes[i], s.inodes[i]), b);
    }
  }

  lemma {:induction false} WroteResized(blk: seq<Block>, ip: Inode, blk': seq<Block>, ip': Inode, off: nat, bytes: seq<Byte>, n: nat)
    requires Wrote(blk, ip, blk', ip', off, bytes)
    ensures Wrote(blk, ip, blk', ip'.(size := n), off, bytes)
  {
    var ip2 := ip'.(size := n);
    forall p | 0 <= p < MAXFILE * BSIZE
      ensures Mapped(blk', ip2, p) == Mapped(blk', ip', p) && ByteAt(blk', ip2, p) == ByteAt(blk', ip', p)
    {
      assert Addr(blk', ip2, FileSlot(p / BSIZE)) == Addr(blk', ip', FileSlot(p / BSIZE));
    }
    hide Mapped, ByteAt;
  }

  lemma {:induction false} TotalLogged(l0: set<nat>, l: set<nat>, off: nat, tot: nat, n: nat, ind: set<nat>, b: nat)
    requires LoggedWithin(l0, l, BlocksTouched(off, tot), Unaligned(off, tot), ind) && |ind| <= 2 && tot <= n
    ensures |l + {b} - l0| <= LogBound(off, n)
  {
    UnionCount(l - l0 - ind, ind);
    UnionCount((l - l0 - ind) + ind, {b});
    SubsetCount(l + {b} - l0, (l - l0 - ind) + ind + {b});
    BlocksMonotone(off, tot, n);
  }

  /** The bytes of one block are a slice of the contents. */
  lemma {:induction false} ReadBlockBytes(blk: seq<Block>, sb: Superblock, inodes: seq<Inode>, owner: map<nat, Place>, i: nat, off: nat, m: nat)
    requires SuperblockOk(sb, |blk|) && Owns(blk, sb, inodes, owner) && i < |inodes| && NoHoles(blk, inodes[i])
    requires 0 < m && off % BSIZE + m <= BSIZE && off + m <= inodes[i].size
    ensures off / BSIZE < MAXFILE && 0 < Addr(blk, inodes[i], FileSlot(off / BSIZE)) < |blk|
    ensures blk[Addr(blk, inodes[i], FileSlot(off / BSIZE))][off % BSIZE..off % BSIZE + m] == Contents(blk, inodes[i])[off..off + m]
  {
    assert off / BSIZE * BSIZE < inodes[i].size;
    var a := Addr(blk, inodes[i], FileSlot(off / BSIZE));
    assert a in owner;
    hide Owns, Addr;
    var c := Contents(blk, inodes[i]);
    forall p | off <= p < off + m
      ensures blk[a][p - off + off % BSIZE] == c[p]
    {
      SameBlock(off, m, p);
    }
  }

  /** Storing into a data block of inode i keeps the ownership, the bitmap and the other inodes' blocks. */
  lemma {:induction false} PatchKeeps(blk: seq<Block>, sb: Superblock, inodes: seq<Inode>, owner: map<nat, Place>, i: nat, off: nat, data: Block)
    requires SuperblockOk(sb, |blk|) && Owns(blk, sb, inodes, owner) && Bits(blk, sb, owner, {}) && AllNoHoles(blk, inodes) && i < |inodes|
    requires off / BSIZE < MAXFILE && Addr(blk, inodes[i], FileSlot(off / BSIZE)) != 0
    ensures Addr(blk, inodes[i], FileSlot(off / BSIZE)) < |blk|
    ensures
      var a := Addr(blk, inodes[i], FileSlot(off / BSIZE));
      var blk' := blk[a := data];
      && Owns(blk', sb, inodes, owner) && Bits(blk', sb, owner, {}) && AllNoHoles(blk', inodes)
      && Addr(blk', inodes[i], FileSlot(off / BSIZE)) == a
      && OthersKept(i, blk, inodes, owner, blk', inodes, owner)
  {
    var a := Addr(blk, inodes[i], FileSlot(off / BSIZE));
    assert a in owner && owner[a] == Place(i, FileSlot(off / BSIZE));
    DataWriteOwns(blk, sb, inodes, owner, a, data);
    BitsDataWrite(blk, sb, owner, {}, a, data);
    hide Bits, Owns;
    NoHolesGrow(blk, inodes, blk[a := data], inodes);
  }

  lemma {:induction false} DirectAddr(blk: seq<Block>, sb: Superblock, inodes: seq<Inode>, owner: map<nat, Place>, i: nat, s: nat)
    requires SuperblockOk(sb, |blk|) && Owns(blk, sb, inodes, owner) && i < |inodes| && s <= NDIRECT
    ensures sb.datastart > 0 && Addr(blk, inodes[i], s) == inodes[i].addrs[s] && Recorded(blk, inodes, owner, i, 0, 0)
    ensures inodes[i].addrs[s] != 0 ==> inodes[i].addrs[s] < |blk|
  {
  }

  lemma {:induction false} Same(blk: seq<Block>, inodes: seq<Inode>, owner: map<nat, Place>, i: nat)
    requires i < |inodes|
    ensures OthersKept(i, blk, inodes, owner, blk, inodes, owner)
    ensures DataKept(blk, inodes[i], blk)
    ensures forall s :: SlotsGrew(blk, inodes[i], blk, inodes[i], s)
  {
    hide Addr;
  }

  lemma {:induction false} DataAddr(blk: seq<Block>, sb: Superblock, inodes: seq<Inode>, owner: map<nat, Place>, i: nat, s: nat)
    requires SuperblockOk(sb, |blk|) && Owns(blk, sb, inodes, owner) && i < |inodes| && s < NSLOT && Addr(blk, inodes[i], s) != 0
    ensures sb.bmapstart <= Addr(blk, inodes[i], s) < |blk|
  {
    hide Addr;
  }

  lemma {:induction false} EntryAddr(blk: seq<Block>, sb: Superblock, ip: Inode, j: nat)
    requires SuperblockOk(sb, |blk|) && 0 < ip.addrs[NDIRECT] < |blk| && j < NINDIRECT
    ensures sb.datastart > 0 && Addr(blk, ip, NDIRECT + 1 + j) == Word(blk[ip.addrs[NDIRECT]], j)
    ensures Addr(blk, ip, NDIRECT) == ip.addrs[NDIRECT]
  {
  }

  lemma {:induction false} EntriesStart(blk: seq<Block>, sb: Superblock, inodes: seq<Inode>, owner: map<nat, Place>, i: nat)
    requires Owns(blk, sb, inodes, owner) && forall b :: b in owner && owner[b].inum == i ==> owner[b].s >= NDIRECT
    ensures Recorded(blk, inodes, owner, i, NDIRECT + 1, NDIRECT + 1) && Placed(blk, sb, inodes, owner) && Remaining(owner, owner, i, NDIRECT, 0)
  {
    hide Addr;
  }

  /** A slot without a block needs no freeing. */
  lemma {:induction false} EmptySlot(blk: seq<Block>, sb: Superblock, inodes: seq<Inode>, owner: map<nat, Place>, i: nat, lo: nat, hi: nat)
    requires Recorded(blk, inodes, owner, i, lo, hi) && Placed(blk, sb, inodes, owner) && sb.datastart > 0
    ensures owner - {0} == owner
    ensures Recorded(blk, inodes, owner, i, lo, hi + 1)
    ensures OthersKept(i, blk, inodes, owner, blk, inodes, owner)
  {
    assert 0 !in owner;
    hide Addr;
  }

  lemma {:induction false} BitOf(blk: seq<Block>, sb: Superblock, b: nat, bi: nat)
    requires SuperblockOk(sb, |blk|) && b % BPB == 0 && bi < BPB && b + bi < sb.size
    ensures sb.bmapstart + b / BPB < |blk| && Used(blk, sb, b + bi) == TestBit(blk[sb.bmapstart + b / BPB], bi)
  {
    hide TestBit;
    assert (b + bi) / BPB == b / BPB && (b + bi) % BPB == bi;
  }
}
