/**
  Files across crashes: the file system's blocks live on a disk with a log, and a transaction of
  the file system is committed by the log. Whatever block write a crash comes after, and however
  many recoveries crash too, every file is as it was before the transaction or as it is after.
 */
module CrashSafeFiles {
  import opened Blocks
  import opened CrashRecovery
  import opened Inodes
  import opened FileSystem

  /** A file system state with its invariant, and the inodes on disk as in memory. */
  ghost predicate Sound(sb: Superblock, s: State)
  {
    && SuperblockOk(sb, |s.blk|) && Owns(s.blk, sb, s.inodes, s.owner) && Bits(s.blk, sb, s.owner, {}) && AllNoHoles(s.blk, s.inodes)
    && InodeBlock(sb, |s.inodes|) < sb.bmapstart && Synced(sb, s.blk, s.inodes)
  }

  /** The blocks of the file system are on the disk, outside the log. */
  ghost predicate OnDisk(start: nat, d: Disk, blk: seq<Block>)
  {
    |d| == |blk| && forall b :: 0 <= b < |d| && IsHome(start, b) ==> d[b] == blk[b]
  }

  /** File i as the disk has it: its inode from its inode block, its bytes from the blocks that names. */
  ghost function FileOnDisk(d: Disk, sb: Superblock, i: nat): (c: seq<Byte>)
    requires InodeBlock(sb, i) < |d|
  {
    var ip := Dinode(d, sb, i);
    if ip.size <= MAXFILE * BSIZE then Contents(d, ip) else []
  }

  /** The disk alone determines every file. */
  lemma {:induction false} DiskHasFiles(sb: Superblock, start: nat, s: State, d: Disk, i: nat)
    requires Sound(sb, s) && OnDisk(start, d, s.blk) && start + LOGSIZE < sb.inodestart && i < |s.inodes|
    ensures InodeBlock(sb, i) < |d| && s.inodes[i].size <= MAXFILE * BSIZE && FileOnDisk(d, sb, i) == Contents(s.blk, s.inodes[i])
  {
    hide Contents, OthersKept, Owns, Synced, Dinode, OnDisk, SuperblockOk, Bits;
    InodesOnDisk(sb, start, s, d, i);
    OwnedOnDisk(sb, start, s, d);
    assert NoHoles(s.blk, s.inodes[i]);
    OwnedRecorded(s.blk, sb, s.inodes, s.owner);
    OtherContents(|s.inodes|, s.blk, s.inodes, s.owner, d, s.inodes, s.owner, i);
  }

  lemma {:induction false} OwnedRecorded(blk: seq<Block>, sb: Superblock, inodes: seq<Inode>, owner: map<nat, Place>)
    requires Owns(blk, sb, inodes, owner)
    ensures Recorded(blk, inodes, owner, 0, 0, 0)
  {
    hide Recorded, Placed;
  }

  lemma {:induction false} InodesOnDisk(sb: Superblock, start: nat, s: State, d: Disk, i: nat)
    requires Sound(sb, s) && OnDisk(start, d, s.blk) && start + LOGSIZE < sb.inodestart && i < |s.inodes|
    ensures InodeBlock(sb, i) < |d| && Dinode(d, sb, i) == s.inodes[i]
  {
    hide Owns, AllNoHoles, GetInode, Bits;
    InodeBlockLow(sb, |s.inodes|, i);
  }

  lemma {:induction false} OwnedOnDisk(sb: Superblock, start: nat, s: State, d: Disk)
    requires Sound(sb, s) && OnDisk(start, d, s.blk) && start + LOGSIZE < sb.inodestart
    ensures OthersKept(|s.inodes|, s.blk, s.inodes, s.owner, d, s.inodes, s.owner)
  {
    hide AllNoHoles, Synced, Recorded, Addr, Placed, Bits;
    OwnedHigh(s.blk, sb, s.inodes, s.owner);
  }

  lemma {:induction false} OwnedHigh(blk: seq<Block>, sb: Superblock, inodes: seq<Inode>, owner: map<nat, Place>)
    requires Placed(blk, sb, inodes, owner)
    ensures forall b :: b in owner ==> sb.datastart <= b < sb.size && owner[b].inum < |inodes|
  {
    hide Addr;
  }

  /** A disk that has the blocks of a sound state is in order itself, and can be mounted again. */
  lemma {:induction false} DiskIsSound(sb: Superblock, start: nat, s: State, d: Disk)
    requires Sound(sb, s) && OnDisk(start, d, s.blk) && start + LOGSIZE < sb.inodestart
    ensures Sound(sb, s.(blk := d)) && InodesOn(d, sb, |s.inodes|) == s.inodes
  {
    hide Contents, OthersKept, AllNoHoles, Bits, Recorded, Placed, Dinode;
    OwnedOnDisk(sb, start, s, d);
    OwnedHigh(s.blk, sb, s.inodes, s.owner);
    KeptIsSame(|s.inodes|, s.blk, s.inodes, s.owner, d, s.inodes, s.owner);
    SameContents(s.blk, sb, s.inodes, s.owner, d);
    OwnsFrame(s.blk, d, sb, s.inodes, s.owner);
    BitsOnDisk(sb, start, s, d);
    forall k | 0 <= k < |s.inodes|
      ensures InodeBlock(sb, k) < |d| && Dinode(d, sb, k) == s.inodes[k]
    {
      InodesOnDisk(sb, start, s, d, k);
    }
  }

  lemma {:induction false} KeptIsSame(n: nat, blk: seq<Block>, inodes: seq<Inode>, owner: map<nat, Place>, blk': seq<Block>, inodes': seq<Inode>, owner': map<nat, Place>)
    requires OthersKept(n, blk, inodes, owner, blk', inodes', owner') && forall b :: b in owner ==> owner[b].inum != n
    ensures SameOwned(blk, blk', owner)
  {
  }

  lemma {:induction false} BitsOnDisk(sb: Superblock, start: nat, s: State, d: Disk)
    requires Sound(sb, s) && OnDisk(start, d, s.blk) && start + LOGSIZE < sb.inodestart
    ensures Bits(d, sb, s.owner, {})
  {
    hide Owns, AllNoHoles, Synced, Used;
    forall c | 0 <= c < sb.size
      ensures Used(d, sb, c) == Used(s.blk, sb, c)
    {
      UsedSame(s.blk, sb, d, c);
    }
  }

  /** homes lists the logged blocks, each once. */
  ghost predicate Lists(homes: seq<nat>, logged: set<nat>)
  {
    && (forall b :: b in homes <==> b in logged)
    && (forall i, j :: 0 <= i < j < |homes| ==> homes[i] != homes[j])
  }

  /** Any logged blocks can be listed. */
  lemma {:induction false} CanList(logged: set<nat>) returns (homes: seq<nat>)
    ensures Lists(homes, logged) && |homes| == |logged|
    decreases |logged|
  {
    homes := [];
    if logged != {} {
      var b :| b in logged;
      var rest := CanList(logged - {b});
      homes := rest + [b];
    }
  }

  ghost function DataFor(blk: seq<Block>, homes: seq<nat>): (data: seq<Block>)
    requires forall i :: 0 <= i < |homes| ==> homes[i] < |blk|
    ensures |data| == |homes|
  {
    seq(|homes|, i requires 0 <= i < |homes| => blk[homes[i]])
  }

  /** A transaction that the log can commit: it starts from blocks on an idle disk, and all it changed is logged. */
  ghost predicate Transaction(sb: Superblock, start: nat, d: Disk, s0: State, s: State, homes: seq<nat>)
  {
    && Idle(d, start) && OnDisk(start, d, s0.blk) && start + LOGSIZE < sb.inodestart && |d| < TWO32
    && Tracked(sb.inodestart, s0.blk, {}, s.blk, s.logged) && Lists(homes, s.logged) && |homes| <= LOGSIZE
  }

  lemma {:induction false} LoggedAreHomes(sb: Superblock, start: nat, d: Disk, s0: State, s: State, homes: seq<nat>)
    requires Transaction(sb, start, d, s0, s, homes)
    ensures Homes(d, start, homes) && forall i :: 0 <= i < |homes| ==> homes[i] < |s.blk|
  {
    forall i | 0 <= i < |homes|
      ensures sb.inodestart <= homes[i] < |d|
    {
      assert homes[i] in homes;
    }
  }

  /** The disk after commit was cut off after k block writes and recoveries were cut off as crashes says, but for the last. */
  ghost function AfterCrash(sb: Superblock, start: nat, d: Disk, s0: State, s: State, homes: seq<nat>, k: nat, crashes: seq<nat>): (d': Disk)
    requires Transaction(sb, start, d, s0, s, homes)
  {
    LoggedAreHomes(sb, start, d, s0, s, homes);
    var ws := CommitWrites(d, start, homes, DataFor(s.blk, homes));
    var n := if k < |ws| then k else |ws|;
    CrashAtomicity(d, start, homes, DataFor(s.blk, homes), n, crashes);
    Reboot(Apply(d, ws[..n]), start, crashes)
  }

  /** Blocks that are not logged are the same before and after. */
  lemma {:induction false} UpdatedIsNew(sb: Superblock, start: nat, d: Disk, s0: State, s: State, homes: seq<nat>, b: nat)
    requires Transaction(sb, start, d, s0, s, homes) && Homes(d, start, homes) && b < |d| && IsHome(start, b)
    requires forall i :: 0 <= i < |homes| ==> homes[i] < |s.blk|
    ensures |s.blk| == |d| && Updated(d, homes, DataFor(s.blk, homes), b) == s.blk[b]
  {
    var data := DataFor(s.blk, homes);
    if b in homes {
      var j :| 0 <= j < |homes| && homes[j] == b;
      UpdatedAt(d, start, homes, data, j);
    }
  }

  /** The recovered disk holds all the blocks of before the transaction, or all those of after it. */
  lemma {:induction false} BlocksAtomic(sb: Superblock, start: nat, d: Disk, s0: State, s: State, homes: seq<nat>, k: nat, crashes: seq<nat>)
    requires Transaction(sb, start, d, s0, s, homes)
    ensures
      var d' := AfterCrash(sb, start, d, s0, s, homes, k, crashes);
      Idle(d', start) && OnDisk(start, d', if k > |homes| && homes != [] then s.blk else s0.blk)
  {
    LoggedAreHomes(sb, start, d, s0, s, homes);
    var data := DataFor(s.blk, homes);
    var ws := CommitWrites(d, start, homes, data);
    var n := if k < |ws| then k else |ws|;
    CrashAtomicity(d, start, homes, data, n, crashes);
    CommitLength(d, start, homes, data);
    var d' := AfterCrash(sb, start, d, s0, s, homes, k, crashes);
    hide Reboot, Apply, CommitWrites, Updated;
    forall b | 0 <= b < |d| && IsHome(start, b)
      ensures |s.blk| == |d| && Updated(d, homes, data, b) == s.blk[b]
    {
      UpdatedIsNew(sb, start, d, s0, s, homes, b);
    }
  }

  lemma {:induction false} CommitLength(d: Disk, start: nat, homes: seq<nat>, data: seq<Block>)
    requires Homes(d, start, homes) && |data| == |homes|
    ensures |CommitWrites(d, start, homes, data)| == if homes == [] then 0 else 2 * |homes| + 2
  {
  }

  /**
    A transaction of the file system is atomic: after a crash at any point of its commit, and any
    further crashes, every file on the recovered disk is as before the transaction, or every
    file is as after it, the latter exactly when the header was written.
   */
  lemma {:induction false} FilesAtomic(sb: Superblock, start: nat, d: Disk, s0: State, s: State, homes: seq<nat>, k: nat, crashes: seq<nat>, i: nat)
    requires Transaction(sb, start, d, s0, s, homes) && Sound(sb, s0) && Sound(sb, s) && |s.inodes| == |s0.inodes| && i < |s.inodes|
    ensures InodeBlock(sb, i) < |AfterCrash(sb, start, d, s0, s, homes, k, crashes)|
    ensures s0.inodes[i].size <= MAXFILE * BSIZE && s.inodes[i].size <= MAXFILE * BSIZE
    ensures FileOnDisk(AfterCrash(sb, start, d, s0, s, homes, k, crashes), sb, i) ==
            if k > |homes| && homes != [] then Contents(s.blk, s.inodes[i]) else Contents(s0.blk, s0.inodes[i])
  {
    BlocksAtomic(sb, start, d, s0, s, homes, k, crashes);
    hide AfterCrash, Transaction, FileOnDisk, Contents;
    var d' := AfterCrash(sb, start, d, s0, s, homes, k, crashes);
    assert NoHoles(s0.blk, s0.inodes[i]) && NoHoles(s.blk, s.inodes[i]);
    DiskHasFiles(sb, start, if k > |homes| && homes != [] then s else s0, d', i);
  }

  /** And the recovered disk is in order: no block in two files, the bitmap exact, no holes. */
  lemma {:induction false} RecoveredIsSound(sb: Superblock, start: nat, d: Disk, s0: State, s: State, homes: seq<nat>, k: nat, crashes: seq<nat>)
    requires Transaction(sb, start, d, s0, s, homes) && Sound(sb, s0) && Sound(sb, s) && |s.inodes| == |s0.inodes|
    ensures
      var d' := AfterCrash(sb, start, d, s0, s, homes, k, crashes);
      Idle(d', start) && Sound(sb, (if k > |homes| && homes != [] then s else s0).(blk := d'))
  {
    BlocksAtomic(sb, start, d, s0, s, homes, k, crashes);
    hide AfterCrash, Sound, OnDisk, Idle;
    DiskIsSound(sb, start, if k > |homes| && homes != [] then s else s0, AfterCrash(sb, start, d, s0, s, homes, k, crashes));
  }

  /** What a write within one transaction leaves on the disk, wherever a crash comes. */
  ghost predicate WriteSurvives(sb: Superblock, start: nat, d: Disk, s0: State, s: State, i: nat, off: nat, bytes: seq<Byte>)
    requires i < |s0.inodes| && forall k :: 0 <= k < |s0.inodes| ==> s0.inodes[k].size <= MAXFILE * BSIZE
    requires off <= s0.inodes[i].size && Sound(sb, s0) && |s.inodes| == |s0.inodes|
  {
    forall homes, k: nat, crashes, j :: Transaction(sb, start, d, s0, s, homes) && 0 <= j < |s0.inodes| ==>
      var d' := AfterCrash(sb, start, d, s0, s, homes, k, crashes);
      && InodeBlock(sb, j) < |d'|
      && FileOnDisk(d', sb, j) ==
           if j == i && k > |homes| && homes != [] then Overwrite(Contents(s0.blk, s0.inodes[i]), off, bytes) else Contents(s0.blk, s0.inodes[j])
  }

  /**
    writei as a transaction of its own: after a crash at any block write of its commit, and any
    crashes of recovery, the file is as before or has exactly the written bytes in place, and
    every other file is as before.
   */
  method CrashSafeWrite(fs: FileSystem, i: nat, off: nat, src: seq<Byte>, ghost start: nat, ghost d: Disk) returns (r: int)
    requires fs.Valid() && i < |fs.inodes| && off < TWO32 && |src| < TWO32 && Sound(fs.sb, fs.Now())
    modifies fs`blk, fs`inodes, fs`owner, fs`logged
    ensures fs.Valid() && Sound(fs.sb, fs.Now()) && |fs.inodes| == old(|fs.inodes|)
    ensures forall k :: 0 <= k < |fs.inodes| ==> old(fs.inodes[k].size) <= MAXFILE * BSIZE
    ensures r == -1 <==> off > old(fs.inodes[i].size) || off + |src| > MAXFILE * BSIZE
    ensures r != -1 ==> 0 <= r <= |src| && WriteSurvives(fs.sb, start, d, old(fs.Now()), fs.Now(), i, off, src[..r])
    ensures r != -1 ==> Tracked(fs.sb.inodestart, old(fs.blk), {}, fs.blk, fs.logged) && |fs.logged| <= LogBound(off, |src|)
  {
    hide Owns, Bits, AllNoHoles, Contents, OthersKept, Tracked, DinodesKept, Synced, Overwrite, Used, LogBound;
    ghost var s0 := fs.Now();
    Unchanged(i, fs.sb, s0);
    fs.logged := {};
    r := fs.Writei(i, off, src);
    if r != -1 {
      assert fs.logged - {} == fs.logged;
      StaysSynced(fs.sb, i, s0.blk, s0.inodes, s0.owner, fs.blk, fs.inodes, fs.owner);
      Survives(fs.sb, start, d, s0, fs.Now(), i, off, src[..r]);
    }
  }

  lemma {:induction false} Survives(sb: Superblock, start: nat, d: Disk, s0: State, s: State, i: nat, off: nat, bytes: seq<Byte>)
    requires Sound(sb, s0) && Sound(sb, s) && |s.inodes| == |s0.inodes| && i < |s0.inodes| && off <= s0.inodes[i].size
    requires forall k :: 0 <= k < |s0.inodes| ==> s0.inodes[k].size <= MAXFILE * BSIZE && s.inodes[k].size <= MAXFILE * BSIZE
    requires Contents(s.blk, s.inodes[i]) == Overwrite(Contents(s0.blk, s0.inodes[i]), off, bytes)
    requires forall k :: 0 <= k < |s0.inodes| && k != i ==> Contents(s.blk, s.inodes[k]) == Contents(s0.blk, s0.inodes[k])
    ensures WriteSurvives(sb, start, d, s0, s, i, off, bytes)
  {
    hide Sound, Contents, Overwrite, Transaction, AfterCrash, FileOnDisk;
    forall homes, k: nat, crashes, j | Transaction(sb, start, d, s0, s, homes) && 0 <= j < |s0.inodes|
      ensures InodeBlock(sb, j) < |AfterCrash(sb, start, d, s0, s, homes, k, crashes)|
      ensures FileOnDisk(AfterCrash(sb, start, d, s0, s, homes, k, crashes), sb, j) ==
           if j == i && k > |homes| && homes != [] then Overwrite(Contents(s0.blk, s0.inodes[i]), off, bytes) else Contents(s0.blk, s0.inodes[j])
    {
      FilesAtomic(sb, start, d, s0, s, homes, k, crashes, j);
    }
  }
}
