/**
  Files across crashes when several operations share a commit: the file system's blocks are the
  block map that the operations of a run of LogProtocol read and write, and a group commit makes
  them permanent at its header write.
 */
module GroupCommit {
  import opened Blocks
  import opened CrashRecovery
  import opened Inodes
  import opened LogProtocol
  import FS = FileSystem
  import Files = CrashSafeFiles

  /** A block map holds the files of fs. */
  ghost predicate Holds(sb: Superblock, start: nat, fs: FS.State, blk: Disk)
  {
    Files.Sound(sb, fs) && Files.OnDisk(start, blk, fs.blk) && start + LOGSIZE < sb.inodestart
  }

  /** The file systems that the commits of a run make permanent: fs[0] at first boot, fs[j + 1] at the header write of event j. */
  ghost predicate Commits(run: seq<State>, events: seq<Event>, sb: Superblock, fs: seq<FS.State>)
    requires Run(run, events)
  {
    && |fs| == |run| && Holds(sb, run[0].start, fs[0], run[0].committed)
    && forall j :: 0 <= j < |events| && events[j].WriteHeader? ==> Holds(sb, run[j].start, fs[j + 1], run[j].cur)
  }

  /** The last commit point before state i. */
  ghost function LastCommit(events: seq<Event>, i: nat): (m: nat)
    requires i <= |events|
    ensures m <= i
  {
    var j := LastHeader(events, i);
    if j.Some? then j.value + 1 else 0
  }

  /**
    A crash in any state of any run, and any crashes of recovery after it, leave a disk that is in
    order and holds exactly the files of the last group commit: every operation in it, and none
    of the operations since.
   */
  lemma {:induction false} CrashLeavesLastCommit(run: seq<State>, events: seq<Event>, sb: Superblock, fs: seq<FS.State>, i: nat, crashes: seq<nat>, k: nat)
    requires Run(run, events) && i < |run| && Commits(run, events, sb, fs) && k < |fs[LastCommit(events, i)].inodes|
    ensures Recoverable(run[i].disk, run[i].start)
    ensures
      var d, s := Reboot(run[i].disk, run[i].start, crashes), fs[LastCommit(events, i)];
      && InodeBlock(sb, k) < |d| && s.inodes[k].size <= MAXFILE * BSIZE
      && Files.FileOnDisk(d, sb, k) == Inodes.Contents(s.blk, s.inodes[k])
      && Files.Sound(sb, s.(blk := d)) && FS.InodesOn(d, sb, |s.inodes|) == s.inodes
  {
    hide Files.Sound, Reboot, Recoverable, Inodes.Contents, Files.FileOnDisk;
    RunSafe(run, events, i, crashes);
    CommittedAtHeader(run, events, i);
    SameStart(run, events, i);
    var d, s := Reboot(run[i].disk, run[i].start, crashes), fs[LastCommit(events, i)];
    assert Files.OnDisk(run[i].start, d, s.blk);
    Files.DiskHasFiles(sb, run[i].start, s, d, k);
    Files.DiskIsSound(sb, run[i].start, s, d);
  }

  lemma {:induction false} SameStart(run: seq<State>, events: seq<Event>, i: nat)
    requires Run(run, events) && i < |run|
    ensures forall j :: 0 <= j <= i ==> run[j].start == run[i].start
    decreases i
  {
    hide Layout, Booting, Enabled;
    if i > 0 {
      SameStart(run, events, i - 1);
      assert run[i - 1 + 1] == Next(run[i - 1], events[i - 1]);
    }
  }
}
