/**
  The on-disk redo log: a header block naming the home blocks of one transaction, followed by
  one log block per home block. This module fixes what commit and recovery write, in order, and
  shows that a transaction takes effect entirely or not at all whatever block writes a crash,
  or crashes during recovery, cut off.
 */
module CrashRecovery {
  import opened Blocks

  const MAXOPBLOCKS := 10
  const LOGSIZE := 3 * MAXOPBLOCKS

  // ---------------------------------------------------------------- the header block

  function PutEntries(b: Block, blocks: seq<nat>, k: nat): (r: Block)
    requires k <= |blocks| <= LOGSIZE
    requires forall i :: 0 <= i < |blocks| ==> blocks[i] < TWO32
  {
    if k == 0 then b else SetWord(PutEntries(b, blocks, k - 1), k, blocks[k - 1])
  }

  /** The header block after write_head stored the count and then the entries over its old contents. */
  function PutHead(b: Block, blocks: seq<nat>): (r: Block)
    requires |blocks| <= LOGSIZE
    requires forall i :: 0 <= i < |blocks| ==> blocks[i] < TWO32
  {
    PutEntries(SetWord(b, 0, |blocks|), blocks, |blocks|)
  }

  predicate HeadOk(b: Block)
  {
    Word(b, 0) <= LOGSIZE
  }

  /** The block numbers read_head finds. */
  function GetHead(b: Block): (r: seq<nat>)
    requires HeadOk(b)
  {
    seq(Word(b, 0), i requires 0 <= i < LOGSIZE => Word(b, i + 1))
  }

  lemma {:induction false} PutEntriesWords(b: Block, blocks: seq<nat>, k: nat, j: nat)
    requires k <= |blocks| <= LOGSIZE && j <= LOGSIZE
    requires forall i :: 0 <= i < |blocks| ==> blocks[i] < TWO32
    ensures Word(PutEntries(b, blocks, k), j) == if 1 <= j <= k then blocks[j - 1] else Word(b, j)
  {
    if k > 0 {
      WordAfterSetWord(PutEntries(b, blocks, k - 1), k, blocks[k - 1], j);
      PutEntriesWords(b, blocks, k - 1, j);
    }
  }

  /** read_head reads back exactly what write_head wrote, whatever the header block held before. */
  lemma {:induction false} HeadRoundTrip(b: Block, blocks: seq<nat>)
    requires |blocks| <= LOGSIZE
    requires forall i :: 0 <= i < |blocks| ==> blocks[i] < TWO32
    ensures HeadOk(PutHead(b, blocks)) && GetHead(PutHead(b, blocks)) == blocks
  {
    var c := SetWord(b, 0, |blocks|);
    WordAfterSetWord(b, 0, |blocks|, 0);
    PutEntriesWords(c, blocks, |blocks|, 0);
    forall i | 0 <= i < |blocks|
      ensures Word(PutHead(b, blocks), i + 1) == blocks[i]
    {
      PutEntriesWords(c, blocks, |blocks|, i + 1);
    }
  }

  /** The header on disk: the count in four bytes, then four bytes for each entry; write_head leaves the rest. */
  lemma {:induction false} HeadBytes(b: Block, blocks: seq<nat>, k: nat)
    requires HeadOk(b)
    requires |blocks| <= LOGSIZE && forall i :: 0 <= i < |blocks| ==> blocks[i] < TWO32
    ensures |GetHead(b)| == LittleEndian(b[0..4])
    ensures forall i :: 0 <= i < |GetHead(b)| ==> GetHead(b)[i] == LittleEndian(b[4 * i + 4..4 * i + 8])
    ensures 4 * |blocks| + 4 <= k < BSIZE ==> PutHead(b, blocks)[k] == b[k]
  {
    WordBytes(b, 0);
    forall i | 0 <= i < |GetHead(b)|
      ensures GetHead(b)[i] == LittleEndian(b[4 * i + 4..4 * i + 8])
    {
      WordBytes(b, i + 1);
    }
    if 4 * |blocks| + 4 <= k < BSIZE {
      EntriesKeep(SetWord(b, 0, |blocks|), blocks, |blocks|, k);
      SetWordKeeps(b, 0, |blocks|, k);
    }
  }

  lemma {:induction false} EntriesKeep(b: Block, blocks: seq<nat>, n: nat, k: nat)
    requires n <= |blocks| <= LOGSIZE && forall i :: 0 <= i < |blocks| ==> blocks[i] < TWO32
    requires 4 * n + 4 <= k < BSIZE
    ensures PutEntries(b, blocks, n)[k] == b[k]
  {
    if n > 0 {
      EntriesKeep(b, blocks, n - 1, k);
      SetWordKeeps(PutEntries(b, blocks, n - 1), n, blocks[n - 1], k);
    }
  }

  // ---------------------------------------------------------------- what is written, in order

  /** b is neither the header block nor a log block. */
  predicate IsHome(start: nat, b: nat)
  {
    b < start || start + LOGSIZE < b
  }

  ghost predicate Homes(d: Disk, start: nat, homes: seq<nat>)
  {
    && start + LOGSIZE < |d|
    && |homes| <= LOGSIZE
    && (forall i :: 0 <= i < |homes| ==> homes[i] < |d| && homes[i] < TWO32 && IsHome(start, homes[i]))
    && (forall i, j :: 0 <= i < j < |homes| ==> homes[i] != homes[j])
  }

  function LogWrites(start: nat, data: seq<Block>): (ws: seq<Write>)
  {
    seq(|data|, i requires 0 <= i < |data| => Write(start + 1 + i, data[i]))
  }

  function HomeWrites(homes: seq<nat>, data: seq<Block>): (ws: seq<Write>)
    requires |homes| == |data|
  {
    seq(|data|, i requires 0 <= i < |data| => Write(homes[i], data[i]))
  }

  /** The block writes of commit, in order: log blocks, header, home blocks, cleared header. */
  ghost function CommitWrites(d: Disk, start: nat, homes: seq<nat>, data: seq<Block>): (ws: seq<Write>)
    requires Homes(d, start, homes) && |homes| == |data|
  {
    if homes == [] then []
    else
      LogWrites(start, data) + [Write(start, PutHead(d[start], homes))]
      + HomeWrites(homes, data) + [Write(start, PutHead(PutHead(d[start], homes), []))]
  }

  /** A disk whose header names a well-formed transaction (possibly the empty one). */
  ghost predicate Recoverable(d: Disk, start: nat)
  {
    && start + LOGSIZE < |d|
    && HeadOk(d[start])
    && Homes(d, start, GetHead(d[start]))
  }

  function Logged(d: Disk, start: nat, n: nat): (data: seq<Block>)
    requires start + n < |d|
  {
    seq(n, i requires 0 <= i < n => d[start + 1 + i])
  }

  /** The block writes of recover_from_log on disk d, in order. */
  ghost function RecoverWrites(d: Disk, start: nat): (ws: seq<Write>)
    requires Recoverable(d, start)
  {
    var homes := GetHead(d[start]);
    HomeWrites(homes, Logged(d, start, |homes|)) + [Write(start, PutHead(d[start], []))]
  }

  // ---------------------------------------------------------------- what a disk means

  /** Home block b after the whole transaction. */
  ghost function Updated(d: Disk, homes: seq<nat>, data: seq<Block>, b: nat): (c: Block)
    requires |homes| == |data| && b < |d|
  {
    if b in homes then
      var i :| 0 <= i < |homes| && homes[i] == b;
      data[i]
    else d[b]
  }

  lemma {:induction false} UpdatedAt(d: Disk, start: nat, homes: seq<nat>, data: seq<Block>, i: nat)
    requires Homes(d, start, homes) && |homes| == |data| && i < |homes|
    ensures Updated(d, homes, data, homes[i]) == data[i]
  {
  }

  /** The contents of home block b that recovery will leave: the logged ones if the header names b. */
  ghost function Logical(d: Disk, start: nat, b: nat): (c: Block)
    requires Recoverable(d, start) && b < |d|
  {
    var homes := GetHead(d[start]);
    Updated(d, homes, Logged(d, start, |homes|), b)
  }

  /** Writing distinct home blocks one after the other: the first k are new, the others are as before. */
  lemma {:induction false} ApplyHomeWrites(d: Disk, start: nat, homes: seq<nat>, data: seq<Block>, k: nat)
    requires Homes(d, start, homes) && |homes| == |data| && k <= |homes|
    ensures Fits(d, HomeWrites(homes, data)[..k])
    ensures
      var d' := Apply(d, HomeWrites(homes, data)[..k]);
      && (forall i :: 0 <= i < k ==> d'[homes[i]] == data[i])
      && (forall b :: 0 <= b < |d| && b !in homes[..k] ==> d'[b] == d[b])
  {
    if k > 0 {
      ApplyHomeWrites(d, start, homes, data, k - 1);
      var ws := HomeWrites(homes, data)[..k];
      assert ws[..k - 1] == HomeWrites(homes, data)[..k - 1];
      assert homes[..k] == homes[..k - 1] + [homes[k - 1]];
    }
  }

  lemma {:induction false} ApplyAllHomeWrites(d: Disk, start: nat, homes: seq<nat>, data: seq<Block>)
    requires Homes(d, start, homes) && |homes| == |data|
    ensures Fits(d, HomeWrites(homes, data))
    ensures forall b :: 0 <= b < |d| ==> Apply(d, HomeWrites(homes, data))[b] == Updated(d, homes, data, b)
  {
    ApplyHomeWrites(d, start, homes, data, |homes|);
    assert HomeWrites(homes, data)[..|homes|] == HomeWrites(homes, data);
    assert homes[..|homes|] == homes;
  }

  lemma {:induction false} ApplyLogWrites(d: Disk, start: nat, data: seq<Block>, k: nat)
    requires k <= |data| && start + |data| < |d|
    ensures Fits(d, LogWrites(start, data)[..k])
    ensures
      var d' := Apply(d, LogWrites(start, data)[..k]);
      && (forall i :: 0 <= i < k ==> d'[start + 1 + i] == data[i])
      && (forall b :: 0 <= b < |d| && !(start < b <= start + k) ==> d'[b] == d[b])
  {
    if k > 0 {
      ApplyLogWrites(d, start, data, k - 1);
      assert LogWrites(start, data)[..k][..k - 1] == LogWrites(start, data)[..k - 1];
    }
  }

  // ---------------------------------------------------------------- recovery

  /** Recovery cut off after any number of its writes leaves the meaning of the disk as it was. */
  lemma {:induction false} PartialRecovery(d: Disk, start: nat, k: nat)
    requires Recoverable(d, start) && k <= |GetHead(d[start])|
    ensures k <= |RecoverWrites(d, start)| && Fits(d, RecoverWrites(d, start)[..k])
    ensures
      var d' := Apply(d, RecoverWrites(d, start)[..k]);
      && Recoverable(d', start) && d'[start] == d[start]
      && forall b :: 0 <= b < |d| && IsHome(start, b) ==> Logical(d', start, b) == Logical(d, start, b)
  {
    var homes := GetHead(d[start]);
    var data := Logged(d, start, |homes|);
    ApplyHomeWrites(d, start, homes, data, k);
    assert RecoverWrites(d, start)[..k] == HomeWrites(homes, data)[..k];
    var d' := Apply(d, HomeWrites(homes, data)[..k]);
    assert Logged(d', start, |homes|) == data;
  }

  /** With an empty header a disk means what its home blocks hold. */
  lemma {:induction false} ClearHeader(d: Disk, start: nat, h: Block)
    requires start + LOGSIZE < |d|
    ensures
      var d' := d[start := PutHead(h, [])];
      && Recoverable(d', start) && GetHead(d'[start]) == []
      && forall b :: 0 <= b < |d| && IsHome(start, b) ==> Logical(d', start, b) == d[b]
  {
    HeadRoundTrip(h, []);
  }

  /** Recovery that runs to its end writes that meaning into the home blocks and clears the header. */
  lemma {:induction false} FullRecovery(d: Disk, start: nat)
    requires Recoverable(d, start)
    ensures Fits(d, RecoverWrites(d, start))
    ensures
      var d' := Apply(d, RecoverWrites(d, start));
      && Recoverable(d', start) && GetHead(d'[start]) == []
      && forall b :: 0 <= b < |d| && IsHome(start, b) ==>
           d'[b] == Logical(d, start, b) && Logical(d', start, b) == Logical(d, start, b)
  {
    var homes := GetHead(d[start]);
    var data := Logged(d, start, |homes|);
    var ws := HomeWrites(homes, data);
    ApplyAllHomeWrites(d, start, homes, data);
    var d1 := Apply(d, ws);
    assert RecoverWrites(d, start)[..|homes|] == ws;
    ClearHeader(d1, start, d[start]);
  }

  /** Boots that each crash after some of recovery's writes, then one boot whose recovery completes. */
  ghost function Reboot(d: Disk, start: nat, crashes: seq<nat>): (r: Disk)
    requires Recoverable(d, start)
    decreases |crashes|
  {
    FullRecovery(d, start);
    if crashes == [] then Apply(d, RecoverWrites(d, start))
    else
      var ws := RecoverWrites(d, start);
      var k := if crashes[0] < |ws| then crashes[0] else |ws|;
      CutRecovery(d, start, k);
      Reboot(Apply(d, ws[..k]), start, crashes[1..])
  }

  lemma {:induction false} CutRecovery(d: Disk, start: nat, k: nat)
    requires Recoverable(d, start) && k <= |RecoverWrites(d, start)|
    ensures Fits(d, RecoverWrites(d, start)[..k])
    ensures
      var d' := Apply(d, RecoverWrites(d, start)[..k]);
      && Recoverable(d', start)
      && forall b :: 0 <= b < |d| && IsHome(start, b) ==> Logical(d', start, b) == Logical(d, start, b)
  {
    if k <= |GetHead(d[start])| {
      PartialRecovery(d, start, k);
    } else {
      FullRecovery(d, start);
      assert RecoverWrites(d, start)[..k] == RecoverWrites(d, start);
    }
  }

  /** However many boots crash during recovery, the one that completes leaves exactly what the disk meant. */
  lemma {:induction false} RebootRestores(d: Disk, start: nat, crashes: seq<nat>)
    requires Recoverable(d, start)
    ensures
      var d' := Reboot(d, start, crashes);
      && |d'| == |d| && Recoverable(d', start) && GetHead(d'[start]) == []
      && forall b :: 0 <= b < |d| && IsHome(start, b) ==> d'[b] == Logical(d, start, b)
    decreases |crashes|
  {
    FullRecovery(d, start);
    if crashes != [] {
      var ws := RecoverWrites(d, start);
      var k := if crashes[0] < |ws| then crashes[0] else |ws|;
      CutRecovery(d, start, k);
      RebootRestores(Apply(d, ws[..k]), start, crashes[1..]);
    }
  }

  // ---------------------------------------------------------------- commit

  /** A disk between transactions: the header names no block. */
  ghost predicate Idle(d: Disk, start: nat)
  {
    start + LOGSIZE < |d| && HeadOk(d[start]) && GetHead(d[start]) == []
  }

  /** The disk after the log blocks and the header were written, and k of the home blocks. */
  lemma {:induction false} CommittedMeaning(d: Disk, d1: Disk, start: nat, homes: seq<nat>, data: seq<Block>, h: Block, k: nat)
    requires Homes(d, start, homes) && |homes| == |data| && k <= |homes| && |d1| == |d|
    requires forall i :: 0 <= i < |homes| ==> d1[start + 1 + i] == data[i]
    requires forall b :: 0 <= b < |d| && IsHome(start, b) ==> d1[b] == d[b]
    requires d1[start] == PutHead(h, homes)
    ensures Fits(d1, HomeWrites(homes, data)[..k])
    ensures
      var d2 := Apply(d1, HomeWrites(homes, data)[..k]);
      && Recoverable(d2, start) && d2[start] == d1[start]
      && (forall b :: 0 <= b < |d| && IsHome(start, b) ==> Logical(d2, start, b) == Updated(d, homes, data, b))
      && (k == |homes| ==> forall b :: 0 <= b < |d| && IsHome(start, b) ==> d2[b] == Updated(d, homes, data, b))
  {
    HeadRoundTrip(h, homes);
    assert Logged(d1, start, |homes|) == data;
    PartialRecovery(d1, start, k);
    Prefix(HomeWrites(homes, data), [Write(start, PutHead(d1[start], []))], k);
    if k == |homes| {
      assert HomeWrites(homes, data)[..k] == HomeWrites(homes, data);
      ApplyAllHomeWrites(d1, start, homes, data);
    }
  }

  lemma {:induction false} Prefix<T>(xs: seq<T>, ys: seq<T>, k: nat)
    requires k <= |xs| + |ys|
    ensures (xs + ys)[..k] == if k <= |xs| then xs[..k] else xs + ys[..k - |xs|]
  {
  }

  /** The first k writes of commit: only log blocks, or all of them, the header and some home blocks. */
  lemma {:induction false} CommitPrefix(d: Disk, start: nat, homes: seq<nat>, data: seq<Block>, k: nat)
    requires Homes(d, start, homes) && |homes| == |data| && homes != [] && k <= 2 * |homes| + 1
    ensures |CommitWrites(d, start, homes, data)| == 2 * |homes| + 2
    ensures CommitWrites(d, start, homes, data)[..k] ==
      if k <= |homes| then LogWrites(start, data)[..k]
      else LogWrites(start, data) + [Write(start, PutHead(d[start], homes))] + HomeWrites(homes, data)[..k - |homes| - 1]
  {
    var ls, hs := LogWrites(start, data), HomeWrites(homes, data);
    var lh := ls + [Write(start, PutHead(d[start], homes))];
    Prefix(lh + hs, [Write(start, PutHead(PutHead(d[start], homes), []))], k);
    Prefix(lh, hs, k);
    if k <= |lh| {
      Prefix(ls, [Write(start, PutHead(d[start], homes))], k);
    }
  }

  lemma {:induction false} LogBlocksWritten(d: Disk, start: nat, data: seq<Block>, k: nat)
    requires Idle(d, start) && k <= |data| <= LOGSIZE
    ensures Fits(d, LogWrites(start, data)[..k])
    ensures
      var d' := Apply(d, LogWrites(start, data)[..k]);
      && Recoverable(d', start) && d'[start] == d[start]
      && (forall i :: 0 <= i < k ==> d'[start + 1 + i] == data[i])
      && (forall b :: 0 <= b < |d| && IsHome(start, b) ==> d'[b] == d[b] && Logical(d', start, b) == d[b])
  {
    ApplyLogWrites(d, start, data, k);
  }

  lemma {:induction false} AfterHeader(d: Disk, start: nat, homes: seq<nat>, data: seq<Block>, k: nat)
    requires Idle(d, start) && Homes(d, start, homes) && |homes| == |data| && homes != []
    requires k <= |homes|
    ensures
      var ws := LogWrites(start, data) + [Write(start, PutHead(d[start], homes))] + HomeWrites(homes, data)[..k];
      && Fits(d, ws)
      && var d' := Apply(d, ws);
      && Recoverable(d', start)
      && (forall b :: 0 <= b < |d| && IsHome(start, b) ==> Logical(d', start, b) == Updated(d, homes, data, b))
      && (k == |homes| ==> forall b :: 0 <= b < |d| && IsHome(start, b) ==> d'[b] == Updated(d, homes, data, b))
  {
    var ls := LogWrites(start, data);
    var h := Write(start, PutHead(d[start], homes));
    LogBlocksWritten(d, start, data, |data|);
    assert ls[..|data|] == ls;
    ApplyConcat(d, ls, [h]);
    var d1 := Apply(d, ls + [h]);
    assert d1 == Apply(d, ls)[start := h.data] by {
      assert [h][..0] == [];
    }
    CommittedMeaning(d, d1, start, homes, data, d[start], k);
    ApplyConcat(d, ls + [h], HomeWrites(homes, data)[..k]);
  }

  /**
    Commit cut off after any k of its writes: the disk means the state before the transaction if
    the header write is not among them, and the whole transaction if it is.
   */
  lemma {:induction false} CutCommit(d: Disk, start: nat, homes: seq<nat>, data: seq<Block>, k: nat)
    requires Idle(d, start) && Homes(d, start, homes) && |homes| == |data|
    requires k <= |CommitWrites(d, start, homes, data)|
    ensures Fits(d, CommitWrites(d, start, homes, data)[..k])
    ensures
      var d' := Apply(d, CommitWrites(d, start, homes, data)[..k]);
      && Recoverable(d', start)
      && forall b :: 0 <= b < |d| && IsHome(start, b) ==>
           Logical(d', start, b) == if k > |homes| then Updated(d, homes, data, b) else d[b]
  {
    var n := |homes|;
    var ws := CommitWrites(d, start, homes, data);
    if n == 0 {
      assert ws[..k] == [];
    } else if k <= n {
      CommitPrefix(d, start, homes, data, k);
      LogBlocksWritten(d, start, data, k);
    } else if k <= 2 * n + 1 {
      CommitPrefix(d, start, homes, data, k);
      AfterHeader(d, start, homes, data, k - n - 1);
    } else {
      CommitPrefix(d, start, homes, data, 2 * n + 1);
      AfterHeader(d, start, homes, data, n);
      assert ws[..k] == ws && ws[..|ws| - 1] == ws[..2 * n + 1];
      ClearHeader(Apply(d, ws[..2 * n + 1]), start, PutHead(d[start], homes));
    }
  }

  /**
    Crash atomicity: a crash after any k block writes of commit, followed by any number of
    crashes during recovery, leaves once a recovery completes every home block at its old
    contents, or every logged one at its new contents, the latter exactly when the header write
    was among the k. The log is then empty again.
   */
  lemma {:induction false} CrashAtomicity(d: Disk, start: nat, homes: seq<nat>, data: seq<Block>, k: nat, crashes: seq<nat>)
    requires Idle(d, start) && Homes(d, start, homes) && |homes| == |data|
    requires k <= |CommitWrites(d, start, homes, data)|
    ensures Fits(d, CommitWrites(d, start, homes, data)[..k])
    ensures Recoverable(Apply(d, CommitWrites(d, start, homes, data)[..k]), start)
    ensures
      var d' := Reboot(Apply(d, CommitWrites(d, start, homes, data)[..k]), start, crashes);
      && |d'| == |d| && Idle(d', start)
      && forall b :: 0 <= b < |d| && IsHome(start, b) ==>
           d'[b] == if k > |homes| then Updated(d, homes, data, b) else d[b]
  {
    CutCommit(d, start, homes, data, k);
    RebootRestores(Apply(d, CommitWrites(d, start, homes, data)[..k]), start, crashes);
  }
}
