/**
  filewrite's loop: a large write is cut into chunks, one transaction each, so small that no
  transaction logs more than MAXOPBLOCKS blocks.
 */
module FileWrite {
  import opened Blocks
  import opened Inodes
  import opened FileSystem
  import opened CrashRecovery
  import opened CrashSafeFiles

  /** ((MAXOPBLOCKS-1-1-2) / 2) * BSIZE */
  const MAXCHUNK := (MAXOPBLOCKS - 1 - 1 - 2) / 2 * BSIZE

  /** A chunk fits a transaction's reservation. */
  lemma {:induction false} ChunkFits(off: nat, n: nat)
    requires n <= MAXCHUNK
    ensures LogBound(off, n) <= MAXOPBLOCKS
  {
    assert MAXCHUNK == 3 * BSIZE;
    if n > 0 {
      var q, r := off / BSIZE, off % BSIZE;
      assert off == q * BSIZE + r;
      assert BlocksTouched(off, n) == (r + n - 1) / BSIZE + 1 by {
        assert (off + n - 1) / BSIZE == q + (r + n - 1) / BSIZE;
      }
    }
  }

  lemma {:induction false} OverwriteJoin(c: seq<Byte>, off: nat, a: seq<Byte>, b: seq<Byte>)
    requires off <= |c|
    ensures Overwrite(Overwrite(c, off, a), off + |a|, b) == Overwrite(c, off, a + b)
  {
  }

  /** One transaction of a file: the states before and after it, and how many bytes of the whole write are stored in each. */
  datatype Tx = Tx(before: State, after: State, from: nat, to: nat)

  /**
    A transaction of a write of src at off over contents c: it takes the file from one prefix of
    src stored to another, changes no other file, logs every block it changes and fits its
    reservation.
   */
  ghost predicate TxOk(sb: Superblock, i: nat, c: seq<Byte>, off: nat, src: seq<Byte>, t: Tx)
  {
    && Sound(sb, t.before) && Sound(sb, t.after) && |t.after.inodes| == |t.before.inodes| && i < |t.before.inodes|
    && Tracked(sb.inodestart, t.before.blk, {}, t.after.blk, t.after.logged) && |t.after.logged| <= MAXOPBLOCKS
    && (forall k :: 0 <= k < |t.before.inodes| ==> t.before.inodes[k].size <= MAXFILE * BSIZE && t.after.inodes[k].size <= MAXFILE * BSIZE)
    && (forall k :: 0 <= k < |t.before.inodes| && k != i ==> Contents(t.after.blk, t.after.inodes[k]) == Contents(t.before.blk, t.before.inodes[k]))
    && t.from <= t.to <= |src|
    && (if off <= |c| then
          && Contents(t.before.blk, t.before.inodes[i]) == Overwrite(c, off, src[..t.from])
          && Contents(t.after.blk, t.after.inodes[i]) == Overwrite(c, off, src[..t.to])
        else
          Contents(t.before.blk, t.before.inodes[i]) == c && Contents(t.after.blk, t.after.inodes[i]) == c)
  }

  /**
    A crash during filewrite, at any block write of the commit of any of its transactions and of
    any recoveries after it, leaves the file with exactly a prefix of src stored, up to the end
    of that transaction or of the one before, and every other file untouched.
   */
  lemma {:induction false} FilewriteCrash(sb: Superblock, i: nat, c: seq<Byte>, off: nat, src: seq<Byte>, t: Tx,
                                          start: nat, d: Disk, homes: seq<nat>, k: nat, crashes: seq<nat>, j: nat)
    requires TxOk(sb, i, c, off, src, t) && off <= |c| && Transaction(sb, start, d, t.before, t.after, homes) && j < |t.before.inodes|
    ensures InodeBlock(sb, j) < |AfterCrash(sb, start, d, t.before, t.after, homes, k, crashes)|
    ensures FileOnDisk(AfterCrash(sb, start, d, t.before, t.after, homes, k, crashes), sb, j) ==
            if j == i then Overwrite(c, off, src[..if k > |homes| && homes != [] then t.to else t.from])
            else Contents(t.before.blk, t.before.inodes[j])
  {
    hide Sound, Contents, Overwrite, Transaction, AfterCrash, FileOnDisk, Tracked;
    FilesAtomic(sb, start, d, t.before, t.after, homes, k, crashes, j);
  }

  /** From number n on, each transaction starts where the one before it ended, the first from first and the last at last. */
  ghost predicate Chained(txs: seq<Tx>, n: nat, first: seq<Block>, last: seq<Block>)
  {
    && n <= |txs| && (if n == |txs| then first == last else txs[n].before.blk == first && txs[|txs| - 1].after.blk == last)
    && forall t :: n < t < |txs| ==> txs[t].before.blk == txs[t - 1].after.blk
  }

  lemma {:induction false} ChainedMore(txs: seq<Tx>, n: nat, first: seq<Block>, t: Tx)
    requires Chained(txs, n, first, t.before.blk)
    ensures Chained(txs + [t], n, first, t.after.blk)
  {
  }

  /** An open file; txs records its transactions. */
  class File {
    const fs: FileSystem
    const inum: nat
    var off: nat
    ghost var txs: seq<Tx>

    constructor (fs: FileSystem, inum: nat)
      ensures this.fs == fs && this.inum == inum && off == 0 && txs == []
    {
      this.fs := fs;
      this.inum := inum;
      off := 0;
      txs := [];
    }

    ghost predicate Valid()
      reads this, fs
    {
      fs.Valid() && Synced(fs.sb, fs.blk, fs.inodes) && inum < |fs.inodes|
    }

    /** begin_op .. end_op around one writei: what it logged fits the reservation. */
    method WriteChunk(chunk: seq<Byte>) returns (r: int)
      requires Valid() && off < TWO32 && |chunk| <= MAXCHUNK
      modifies this`off, fs`blk, fs`inodes, fs`owner, fs`logged
      ensures Valid() && |fs.inodes| == old(|fs.inodes|) && |fs.blk| == old(|fs.blk|)
      ensures |fs.logged| <= MAXOPBLOCKS && Tracked(fs.sb.inodestart, old(fs.blk), {}, fs.blk, fs.logged)
      ensures forall k :: 0 <= k < |fs.inodes| ==> old(fs.inodes[k].size) <= MAXFILE * BSIZE && fs.inodes[k].size <= MAXFILE * BSIZE
      ensures r == -1 <==> old(off) > old(fs.inodes[inum].size) || old(off) + |chunk| > MAXFILE * BSIZE
      ensures r == -1 ==> off == old(off) && fs.blk == old(fs.blk) && fs.inodes == old(fs.inodes) && fs.owner == old(fs.owner)
      ensures r != -1 ==> 0 <= r <= |chunk| && off == old(off) + r && off <= fs.inodes[inum].size
      ensures r != -1 ==> Contents(fs.blk, fs.inodes[inum]) == Overwrite(old(Contents(fs.blk, fs.inodes[inum])), old(off), chunk[..r])
      ensures 0 <= r < |chunk| ==> forall b :: 0 <= b < fs.sb.size ==> Used(fs.blk, fs.sb, b)
      ensures forall k :: 0 <= k < |fs.inodes| && k != inum ==> Contents(fs.blk, fs.inodes[k]) == old(Contents(fs.blk, fs.inodes[k]))
      ensures OthersKept(inum, old(fs.blk), old(fs.inodes), old(fs.owner), fs.blk, fs.inodes, fs.owner)
    {
      hide Owns, Bits, AllNoHoles, OthersKept, Contents, LogBound, Used, Tracked, Synced, DinodesKept;
      Unchanged(inum, fs.sb, fs.Now());
      fs.logged := {};
      ChunkFits(off, |chunk|);
      r := fs.Writei(inum, off, chunk);
      assert fs.logged - {} == fs.logged;
      if r != -1 {
        StaysSynced(fs.sb, inum, old(fs.blk), old(fs.inodes), old(fs.owner), fs.blk, fs.inodes, fs.owner);
      }
      if r > 0 {
        off := off + r;
      }
    }

    /**
      filewrite on an inode: returns n when every byte was stored, and otherwise -1, when the
      bytes before f->off are stored all the same. Each of its transactions is as TxOk says.
     */
    method Filewrite(src: seq<Byte>) returns (r: int)
      requires Valid() && off < TWO32
      modifies this`off, this`txs, fs`blk, fs`inodes, fs`owner, fs`logged
      ensures Valid() && |fs.inodes| == old(|fs.inodes|) && |fs.blk| == old(|fs.blk|)
      ensures old(fs.inodes[inum].size) <= MAXFILE * BSIZE && fs.inodes[inum].size <= MAXFILE * BSIZE
      ensures old(off) <= off <= old(off) + |src|
      ensures old(off) <= old(fs.inodes[inum].size) ==>
        Contents(fs.blk, fs.inodes[inum]) == Overwrite(old(Contents(fs.blk, fs.inodes[inum])), old(off), src[..off - old(off)])
      ensures old(off) > old(fs.inodes[inum].size) ==> off == old(off) && Contents(fs.blk, fs.inodes[inum]) == old(Contents(fs.blk, fs.inodes[inum]))
      ensures r == if off == old(off) + |src| then |src| else -1
      ensures r == -1 ==> old(off) > old(fs.inodes[inum].size) || old(off) + |src| > MAXFILE * BSIZE || forall b :: 0 <= b < fs.sb.size ==> Used(fs.blk, fs.sb, b)
      ensures OthersKept(inum, old(fs.blk), old(fs.inodes), old(fs.owner), fs.blk, fs.inodes, fs.owner)
      ensures Chained(txs, |old(txs)|, old(fs.blk), fs.blk)
      ensures forall t :: |old(txs)| <= t < |txs| ==> TxOk(fs.sb, inum, old(Contents(fs.blk, fs.inodes[inum])), old(off), src, txs[t])
    {
      hide fs.Valid, OthersKept, Contents, Used, Overwrite, Synced, TxOk;
      assert Chained(txs, |txs|, fs.blk, fs.blk);
      hide Chained;
      SizeOk();
      ghost var c := Contents(fs.blk, fs.inodes[inum]);
      if off <= |c| {
        OverwriteNothing(c, off);
      }
      assert src[..0] == [];
      var i := 0;
      while i < |src|
        invariant 0 <= i <= |src| && off == old(off) + i && Valid() && |fs.inodes| == old(|fs.inodes|) && |fs.blk| == old(|fs.blk|)
        invariant fs.inodes[inum].size <= MAXFILE * BSIZE && Stored(c, old(off), src, i)
        invariant OthersKept(inum, old(fs.blk), old(fs.inodes), old(fs.owner), fs.blk, fs.inodes, fs.owner)
        invariant Chained(txs, |old(txs)|, old(fs.blk), fs.blk)
        invariant forall t :: |old(txs)| <= t < |txs| ==> TxOk(fs.sb, inum, c, old(off), src, txs[t])
      {
        ghost var blk1, inodes1, owner1, txs1 := fs.blk, fs.inodes, fs.owner, txs;
        var n1, w := NextChunk(src, i, old(off), c);
        ChainedMore(txs1, |old(txs)|, old(fs.blk), txs[|txs1|]);
        OthersKeptTrans(inum, old(fs.blk), old(fs.inodes), old(fs.owner), blk1, inodes1, owner1, fs.blk, fs.inodes, fs.owner);
        if w != n1 {
          return -1;
        }
        i := i + w;
      }
      return i;
    }

    /** The first i bytes of src are stored at off0 over contents c, if off0 lies in the file at all. */
    ghost predicate Stored(c: seq<Byte>, off0: nat, src: seq<Byte>, i: nat)
      requires inum < |fs.inodes| && fs.inodes[inum].size <= MAXFILE * BSIZE && i <= |src|
      reads this, fs
    {
      if off0 <= |c| then off0 + i <= fs.inodes[inum].size && Contents(fs.blk, fs.inodes[inum]) == Overwrite(c, off0, src[..i])
      else i == 0 && fs.inodes[inum].size < off0 && Contents(fs.blk, fs.inodes[inum]) == c
    }

    /** One turn of the loop, seen from the start of the write at off0 of contents c. */
    method NextChunk(src: seq<Byte>, i: nat, ghost off0: nat, ghost c: seq<Byte>) returns (n1: nat, w: int)
      requires Valid() && i < |src| && off == off0 + i && off0 < TWO32 && fs.inodes[inum].size <= MAXFILE * BSIZE && Stored(c, off0, src, i)
      modifies this`off, this`txs, fs`blk, fs`inodes, fs`owner, fs`logged
      ensures Valid() && |fs.inodes| == old(|fs.inodes|) && |fs.blk| == old(|fs.blk|) && fs.inodes[inum].size <= MAXFILE * BSIZE
      ensures 0 < n1 <= |src| - i && -1 <= w <= n1 && off == old(off) + (if w < 0 then 0 else w)
      ensures w == -1 ==> off0 > |c| || off + |src| - i > MAXFILE * BSIZE
      ensures 0 <= w < n1 ==> forall b :: 0 <= b < fs.sb.size ==> Used(fs.blk, fs.sb, b)
      ensures Stored(c, off0, src, off - off0)
      ensures OthersKept(inum, old(fs.blk), old(fs.inodes), old(fs.owner), fs.blk, fs.inodes, fs.owner)
      ensures |txs| == |old(txs)| + 1 && txs == old(txs) + [txs[|old(txs)|]] && TxOk(fs.sb, inum, c, off0, src, txs[|old(txs)|])
      ensures txs[|old(txs)|].before.blk == old(fs.blk) && txs[|old(txs)|].after.blk == fs.blk
    {
      hide OthersKept, Contents, Used, Overwrite, Synced, Owns, Bits, AllNoHoles, Tracked;
      ghost var s0 := fs.Now();
      n1 := |src| - i;
      if n1 > MAXCHUNK {
        n1 := MAXCHUNK;
      }
      w := WriteChunk(src[i..i + n1]);
      ghost var done := if w < 0 then 0 else w;
      if off0 <= |c| {
        OverwriteJoin(c, off0, src[..i], src[i..i + n1][..done]);
        assert src[..i] + src[i..i + n1][..done] == src[..i + done];
      }
      txs := txs + [Tx(s0, fs.Now(), i, i + done)];
    }

    lemma {:induction false} SizeOk()
      requires fs.Valid() && inum < |fs.inodes|
      ensures fs.inodes[inum].size <= MAXFILE * BSIZE
      ensures OthersKept(inum, fs.blk, fs.inodes, fs.owner, fs.blk, fs.inodes, fs.owner)
    {
      hide Owns, Bits;
      assert NoHoles(fs.blk, fs.inodes[inum]);
    }
  }
}
