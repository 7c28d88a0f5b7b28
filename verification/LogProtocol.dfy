/**
  The logging protocol with any number of processes, interleaved step by step, and with crashes
  at any point, recovery included. Buffers are shared through reference counts and sleep locks,
  operations reserve log space, the last one to end commits, readers run during the commit, and
  every block write is one step.
 */
module LogProtocol {
  import opened Blocks
  import opened CrashRecovery

  /** A block in use: its data, its reference count, and who waits for or holds its sleep lock. */
  datatype Slot = Slot(data: Block, refs: nat, waiting: nat, owner: Option<nat>, modified: bool)

  /** Where commit, or recovery, is: no commit; log blocks copied; home blocks installed; header cleared; home blocks replayed. */
  datatype Phase = Normal | Copying(k: nat) | Installing(k: nat) | Cleared | Replaying(k: nat)

  /**
    cur is the block map the file system works on: the contents last handed to log_write.
    committed is the block map of the last commit point. ops gives for each operation in
    progress how many of its reserved log slots are left.
   */
  datatype State = State(
    start: nat,
    disk: Disk,
    mem: map<nat, Slot>,
    blocks: seq<nat>,
    outstanding: nat,
    ops: map<nat, nat>,
    phase: Phase,
    cur: Disk,
    committed: Disk)

  datatype Event =
    | Get(b: nat) | Lock(p: nat, b: nat) | Modify(p: nat, b: nat, data: Block) | LogWrite(p: nat, b: nat) | Release(p: nat, b: nat)
    | BeginOp(p: nat) | EndOp(p: nat)
    | CopyBlock | WriteHeader | InstallBlock | ClearHeader | FinishCommit
    | Crash | ReplayBlock | ReplayClear

  ghost predicate IsHomeBlock(s: State, b: nat)
  {
    b < |s.disk| && b < TWO32 && IsHome(s.start, b)
  }

  /** How many recorded blocks are installed already. */
  function Done(s: State): (k: nat)
  {
    if s.phase.Installing? then s.phase.k else 0
  }

  /** The recorded blocks that are not installed yet: log_write's pin is still on them. */
  function Pending(s: State): (r: seq<nat>)
    requires Done(s) <= |s.blocks|
  {
    s.blocks[Done(s)..]
  }

  ghost predicate Up(s: State)
  {
    !s.phase.Replaying?
  }

  /** The events that may happen next. Where the kernel would panic or wait, the event is not enabled. */
  ghost predicate Enabled(s: State, e: Event)
  {
    match e
    case Get(b) => Up(s) && IsHomeBlock(s, b) && (b in s.mem || |s.mem| < NBUF)
    case Lock(p, b) => Up(s) && b in s.mem && s.mem[b].owner.None? && s.mem[b].waiting > 0
    case Modify(p, b, data) => Up(s) && b in s.mem && s.mem[b].owner == Some(p) && p in s.ops
    case LogWrite(p, b) =>
      && Up(s) && b in s.mem && s.mem[b].owner == Some(p) && p in s.ops && |s.blocks| < LOGSIZE && IsHomeBlock(s, b)
      && (b in s.blocks || s.ops[p] > 0)
    case Release(p, b) => Up(s) && b in s.mem && s.mem[b].owner == Some(p) && !s.mem[b].modified
    case BeginOp(p) =>
      s.phase == Normal && p !in s.ops && |s.blocks| + (s.outstanding + 1) * MAXOPBLOCKS <= LOGSIZE
    case EndOp(p) =>
      Up(s) && p in s.ops && forall b :: b in s.mem && s.mem[b].modified ==> s.mem[b].owner != Some(p)
    case CopyBlock =>
      && s.phase.Copying? && s.phase.k < |s.blocks| && |s.mem| < NBUF
      && s.blocks[s.phase.k] in s.mem && s.mem[s.blocks[s.phase.k]].owner.None?
    case WriteHeader => s.phase.Copying? && s.phase.k == |s.blocks| > 0 && |s.mem| < NBUF
    case InstallBlock =>
      && s.phase.Installing? && s.phase.k < |s.blocks| && |s.mem| < NBUF
      && s.blocks[s.phase.k] in s.mem && s.mem[s.blocks[s.phase.k]].owner.None?
    case ClearHeader => s.phase.Installing? && s.phase.k == |s.blocks| && |s.mem| < NBUF
    case FinishCommit => s.phase == Cleared || (s.phase == Copying(0) && s.blocks == [])
    case Crash => true
    case ReplayBlock => s.phase.Replaying? && s.phase.k < |s.blocks|
    case ReplayClear => s.phase.Replaying? && s.phase.k == |s.blocks|
  }

  function Taken(s: State, b: nat): (x: Slot)
    requires b in s.mem || b < |s.disk|
  {
    if b in s.mem then s.mem[b].(refs := s.mem[b].refs + 1, waiting := s.mem[b].waiting + 1)
    else Slot(s.disk[b], 1, 1, None, false)
  }

  function DropRef(mem: map<nat, Slot>, b: nat, x: Slot): (r: map<nat, Slot>)
  {
    if x.refs <= 1 then mem - {b} else mem[b := x.(refs := x.refs - 1)]
  }

  ghost function Next(s: State, e: Event): (s': State)
    requires Layout(s) && Enabled(s, e)
  {
    match e
    case Get(b) => s.(mem := s.mem[b := Taken(s, b)])
    case Lock(p, b) => s.(mem := s.mem[b := s.mem[b].(waiting := s.mem[b].waiting - 1, owner := Some(p))])
    case Modify(p, b, data) => s.(mem := s.mem[b := s.mem[b].(data := data, modified := true)])
    case LogWrite(p, b) =>
      var x := s.mem[b].(modified := false);
      if b in s.blocks then s.(mem := s.mem[b := x], cur := s.cur[b := x.data])
      else s.(mem := s.mem[b := x.(refs := x.refs + 1)], cur := s.cur[b := x.data],
              blocks := s.blocks + [b], ops := s.ops[p := s.ops[p] - 1])
    case Release(p, b) => s.(mem := DropRef(s.mem, b, s.mem[b].(owner := None)))
    case BeginOp(p) => s.(ops := s.ops[p := MAXOPBLOCKS], outstanding := s.outstanding + 1)
    case EndOp(p) =>
      s.(ops := s.ops - {p}, outstanding := if s.outstanding == 0 then 0 else s.outstanding - 1,
         phase := if s.outstanding == 1 then Copying(0) else s.phase)
    case CopyBlock =>
      var b := s.blocks[s.phase.k];
      s.(disk := s.disk[s.start + 1 + s.phase.k := s.mem[b].data], phase := Copying(s.phase.k + 1))
    case WriteHeader =>
      s.(disk := s.disk[s.start := PutHead(s.disk[s.start], s.blocks)], phase := Installing(0), committed := s.cur)
    case InstallBlock =>
      var b := s.blocks[s.phase.k];
      var data := s.disk[s.start + 1 + s.phase.k];
      s.(disk := s.disk[b := data], mem := DropRef(s.mem, b, s.mem[b].(data := data)), phase := Installing(s.phase.k + 1))
    case ClearHeader =>
      s.(disk := s.disk[s.start := PutHead(s.disk[s.start], [])], blocks := [], phase := Cleared)
    case FinishCommit => s.(phase := Normal)
    case Crash =>
      State(s.start, s.disk, map[], if HeadOk(s.disk[s.start]) then GetHead(s.disk[s.start]) else [], 0, map[], Replaying(0), s.committed, s.committed)
    case ReplayBlock =>
      s.(disk := s.disk[s.blocks[s.phase.k] := s.disk[s.start + 1 + s.phase.k]], phase := Replaying(s.phase.k + 1))
    case ReplayClear =>
      s.(disk := s.disk[s.start := PutHead(s.disk[s.start], [])], blocks := [], phase := Normal)
  }

  // ---------------------------------------------------------------- log space

  ghost function Total(m: map<nat, nat>): (n: nat)
    decreases |m|
  {
    if m == map[] then 0
    else
      var k :| k in m;
      m[k] + Total(m - {k})
  }

  lemma {:induction false} TotalSplit(m: map<nat, nat>, k: nat)
    requires k in m
    ensures Total(m) == m[k] + Total(m - {k})
    decreases |m|
  {
    var j :| j in m && Total(m) == m[j] + Total(m - {j});
    if j != k {
      TotalSplit(m - {j}, k);
      TotalSplit(m - {k}, j);
      assert m - {j} - {k} == m - {k} - {j};
    }
  }

  lemma {:induction false} TotalUpdate(m: map<nat, nat>, k: nat, v: nat)
    ensures Total(m[k := v]) == v + Total(m - {k})
  {
    TotalSplit(m[k := v], k);
    assert m[k := v] - {k} == m - {k};
  }

  lemma {:induction false} TotalBound(m: map<nat, nat>)
    requires forall k :: k in m ==> m[k] <= MAXOPBLOCKS
    ensures Total(m) <= MAXOPBLOCKS * |m|
    decreases |m|
  {
    if m != map[] {
      var j :| j in m && Total(m) == m[j] + Total(m - {j});
      TotalBound(m - {j});
      assert |m - {j}| == |m| - 1;
    }
  }

  // ---------------------------------------------------------------- what every step keeps

  ghost predicate Layout(s: State)
  {
    && |s.cur| == |s.committed| == |s.disk|
    && Homes(s.disk, s.start, s.blocks)
    && Done(s) <= |s.blocks|
    && (s.phase.Copying? || s.phase.Replaying? ==> s.phase.k <= |s.blocks|)
  }

  /** One cached block: who accounts for its references, and what its data is. */
  ghost predicate SlotOk(start: nat, pending: seq<nat>, ops: map<nat, nat>, cur: Disk, b: nat, x: Slot)
  {
    && b < |cur| && b < TWO32 && IsHome(start, b)
    && x.refs == x.waiting + (if x.owner.Some? then 1 else 0) + (if b in pending then 1 else 0)
    && x.refs > 0
    && (if x.modified then x.owner.Some? && x.owner.value in ops else x.data == cur[b])
  }

  ghost predicate SlotsOk(start: nat, pending: seq<nat>, ops: map<nat, nat>, cur: Disk, mem: map<nat, Slot>)
  {
    forall b :: b in mem ==> SlotOk(start, pending, ops, cur, b, mem[b])
  }

  ghost predicate PendingCached(pending: seq<nat>, mem: map<nat, Slot>)
  {
    forall b :: b in pending ==> b in mem
  }

  ghost predicate CacheOk(s: State)
    requires Layout(s)
  {
    && SlotsOk(s.start, Pending(s), s.ops, s.cur, s.mem)
    && (if Up(s) then PendingCached(Pending(s), s.mem) else s.mem == map[])
  }

  /** Home blocks on disk that are not pending are current. */
  ghost predicate HomesCurrent(start: nat, disk: Disk, pending: seq<nat>, cur: Disk)
    requires |cur| == |disk|
  {
    forall b :: 0 <= b < |disk| && IsHome(start, b) && b !in pending ==> disk[b] == cur[b]
  }

  /** The first k log blocks hold the current contents of the blocks they are for. */
  ghost predicate LogHolds(start: nat, disk: Disk, blocks: seq<nat>, cur: Disk, k: nat)
    requires |cur| == |disk| && Homes(disk, start, blocks) && k <= |blocks|
  {
    forall i :: 0 <= i < k ==> disk[start + 1 + i] == cur[blocks[i]]
  }

  /** Before the header names the transaction: the home blocks are as committed. */
  ghost predicate Uncommitted(start: nat, disk: Disk, committed: Disk)
    requires |committed| == |disk|
  {
    Idle(disk, start) && HomesCurrent(start, disk, [], committed)
  }

  ghost predicate InHeader(start: nat, disk: Disk, blocks: seq<nat>)
    requires start < |disk|
  {
    HeadOk(disk[start]) && GetHead(disk[start]) == blocks
  }

  /** Recovery's view: the log and the disk together give the committed block map, and k blocks are home. */
  ghost predicate Replayed(start: nat, disk: Disk, blocks: seq<nat>, committed: Disk, k: nat)
    requires |committed| == |disk| && Homes(disk, start, blocks) && k <= |blocks|
  {
    && (forall b :: 0 <= b < |disk| && IsHome(start, b) ==>
          Updated(disk, blocks, Logged(disk, start, |blocks|), b) == committed[b])
    && (forall i :: 0 <= i < k ==> disk[blocks[i]] == disk[start + 1 + i])
  }

  ghost predicate DiskOk(s: State)
    requires Layout(s)
  {
    && (Up(s) ==> HomesCurrent(s.start, s.disk, Pending(s), s.cur))
    && match s.phase
       case Normal => Uncommitted(s.start, s.disk, s.committed)
       case Copying(k) => Uncommitted(s.start, s.disk, s.committed) && LogHolds(s.start, s.disk, s.blocks, s.cur, k)
       case Installing(k) =>
         InHeader(s.start, s.disk, s.blocks) && s.committed == s.cur && LogHolds(s.start, s.disk, s.blocks, s.cur, |s.blocks|)
       case Cleared => Uncommitted(s.start, s.disk, s.committed)
       case Replaying(k) =>
         InHeader(s.start, s.disk, s.blocks) && s.committed == s.cur && Replayed(s.start, s.disk, s.blocks, s.committed, k)
  }

  /** Log space: what is recorded and what is reserved fit, and a commit runs alone. */
  ghost predicate SpaceOk(s: State)
  {
    && s.outstanding == |s.ops|
    && (forall p :: p in s.ops ==> s.ops[p] <= MAXOPBLOCKS)
    && |s.blocks| + Total(s.ops) <= LOGSIZE
    && (s.phase != Normal ==> s.ops == map[])
    && (s.phase == Normal && s.ops == map[] ==> s.blocks == [])
    && (s.phase == Cleared ==> s.blocks == [])
  }

  ghost predicate Inv(s: State)
  {
    Layout(s) && CacheOk(s) && DiskOk(s) && SpaceOk(s)
  }

  // ---------------------------------------------------------------- each step keeps it

  /** What is on disk and in the log does not depend on who uses which buffer. */
  lemma {:induction false} DiskFrame(s: State, s': State)
    requires Layout(s) && DiskOk(s)
    requires s' == s.(mem := s'.mem, ops := s'.ops, outstanding := s'.outstanding)
    ensures Layout(s') && DiskOk(s')
  {
  }

  lemma {:induction false} StepGet(s: State, b: nat)
    requires Inv(s) && Enabled(s, Get(b))
    ensures Inv(Next(s, Get(b)))
  {
    var s' := Next(s, Get(b));
    assert SlotOk(s.start, Pending(s), s.ops, s.cur, b, s'.mem[b]) by {
      if b in s.mem {
        assert SlotOk(s.start, Pending(s), s.ops, s.cur, b, s.mem[b]);
      }
    }
    DiskFrame(s, s');
    hide DiskOk, SlotOk, Homes, Total, SlotsOk, PendingCached;
    HolderSlots(s.start, Pending(s), s.ops, s.cur, s.cur, s.mem, b, s'.mem[b]);
  }

  lemma {:induction false} StepHolder(s: State, e: Event)
    requires Inv(s) && Enabled(s, e) && (e.Lock? || e.Modify?)
    ensures Inv(Next(s, e))
  {
    var s' := Next(s, e);
    hide Homes, Total, HeadOk, GetHead, PutHead;
    assert SlotOk(s.start, Pending(s), s.ops, s.cur, e.b, s.mem[e.b]);
    assert SlotOk(s.start, Pending(s), s.ops, s.cur, e.b, s'.mem[e.b]);
    DiskFrame(s, s');
    hide DiskOk, SlotOk, SlotsOk, PendingCached;
    HolderSlots(s.start, Pending(s), s.ops, s.cur, s.cur, s.mem, e.b, s'.mem[e.b]);
  }

  lemma {:induction false} StepRelease(s: State, p: nat, b: nat)
    requires Inv(s) && Enabled(s, Release(p, b))
    ensures Inv(Next(s, Release(p, b)))
  {
    var s' := Next(s, Release(p, b));
    assert SlotOk(s.start, Pending(s), s.ops, s.cur, b, s.mem[b]);
  }

  lemma {:induction false} StepAbsorb(s: State, p: nat, b: nat)
    requires Inv(s) && Enabled(s, LogWrite(p, b)) && b in s.blocks
    ensures Inv(Next(s, LogWrite(p, b)))
  {
    hide Total, GetHead, HeadOk, Uncommitted, SlotsOk, HomesCurrent, PendingCached;
    assert s.phase == Normal && Pending(s) == s.blocks;
    HolderSlots(s.start, s.blocks, s.ops, s.cur, s.cur[b := s.mem[b].data], s.mem, b, s.mem[b].(modified := false));
    AbsorbDisk(s.start, s.disk, s.blocks, s.cur, b, s.mem[b].data);
  }

  lemma {:induction false} AbsorbDisk(start: nat, disk: Disk, blocks: seq<nat>, cur: Disk, b: nat, data: Block)
    requires |cur| == |disk| && b < |disk| && HomesCurrent(start, disk, blocks, cur) && b in blocks
    ensures HomesCurrent(start, disk, blocks, cur[b := data])
  {
  }

  /** Changing one cached block, and possibly the block map at it. */
  lemma {:induction false} HolderSlots(start: nat, pending: seq<nat>, ops: map<nat, nat>, cur: Disk, cur': Disk,
                                       mem: map<nat, Slot>, b: nat, x: Slot)
    requires SlotsOk(start, pending, ops, cur, mem) && PendingCached(pending, mem)
    requires |cur'| == |cur| && (b in mem ==> SlotOk(start, pending, ops, cur, b, mem[b]) ==> SlotOk(start, pending, ops, cur', b, x))
    requires b !in mem ==> SlotOk(start, pending, ops, cur', b, x)
    requires forall c :: 0 <= c < |cur| && c != b ==> cur'[c] == cur[c]
    ensures SlotsOk(start, pending, ops, cur', mem[b := x]) && PendingCached(pending, mem[b := x])
  {
    var mem' := mem[b := x];
    forall c | c in mem'
      ensures SlotOk(start, pending, ops, cur', c, mem'[c])
    {
      if c != b {
        assert SlotOk(start, pending, ops, cur, c, mem[c]);
      } else if c in mem {
        assert SlotOk(start, pending, ops, cur, c, mem[c]);
      }
    }
  }

  lemma {:induction false} StepRecord(s: State, p: nat, b: nat)
    requires Inv(s) && Enabled(s, LogWrite(p, b)) && b !in s.blocks
    ensures Inv(Next(s, LogWrite(p, b)))
  {
    hide SlotsOk, PendingCached, Total, GetHead, HeadOk, HomesCurrent;
    assert s.phase == Normal && s.blocks[0..] == s.blocks && (s.blocks + [b])[0..] == s.blocks + [b];
    TotalUpdate(s.ops, p, s.ops[p] - 1);
    TotalSplit(s.ops, p);
    RecordSlots(s.start, s.blocks, s.ops, s.ops[p := s.ops[p] - 1], s.cur, s.mem, b);
    RecordDisk(s.start, s.disk, s.blocks, s.cur, b, s.mem[b].data);
  }

  lemma {:induction false} RecordDisk(start: nat, disk: Disk, blocks: seq<nat>, cur: Disk, b: nat, data: Block)
    requires |cur| == |disk| && b < |disk| && HomesCurrent(start, disk, blocks, cur)
    ensures HomesCurrent(start, disk, blocks + [b], cur[b := data])
  {
  }

  /** log_write of a new block: the holder's data is current, and the block gets a pin. */
  lemma {:induction false} RecordSlots(start: nat, pending: seq<nat>, ops: map<nat, nat>, ops': map<nat, nat>, cur: Disk,
                                       mem: map<nat, Slot>, b: nat)
    requires SlotsOk(start, pending, ops, cur, mem) && PendingCached(pending, mem)
    requires b in mem && b !in pending && b < |cur| && ops'.Keys == ops.Keys
    ensures
      var mem' := mem[b := mem[b].(modified := false, refs := mem[b].refs + 1)];
      && SlotsOk(start, pending + [b], ops', cur[b := mem[b].data], mem')
      && PendingCached(pending + [b], mem')
  {
    var mem' := mem[b := mem[b].(modified := false, refs := mem[b].refs + 1)];
    forall c | c in mem'
      ensures SlotOk(start, pending + [b], ops', cur[b := mem[b].data], c, mem'[c])
    {
      assert SlotOk(start, pending, ops, cur, c, mem[c]);
    }
  }

  lemma {:induction false} StepBeginOp(s: State, p: nat)
    requires Inv(s) && Enabled(s, BeginOp(p))
    ensures Inv(Next(s, BeginOp(p)))
  {
    DiskFrame(s, Next(s, BeginOp(p)));
    SpaceBegin(s, p);
    hide DiskOk, SpaceOk;
    forall b | b in s.mem
      ensures SlotOk(s.start, Pending(s), s.ops[p := MAXOPBLOCKS], s.cur, b, s.mem[b])
    {
      assert SlotOk(s.start, Pending(s), s.ops, s.cur, b, s.mem[b]);
    }
  }

  lemma {:induction false} SpaceBegin(s: State, p: nat)
    requires SpaceOk(s) && s.phase == Normal && p !in s.ops
    requires |s.blocks| + (s.outstanding + 1) * MAXOPBLOCKS <= LOGSIZE
    ensures SpaceOk(s.(ops := s.ops[p := MAXOPBLOCKS], outstanding := s.outstanding + 1))
  {
    TotalUpdate(s.ops, p, MAXOPBLOCKS);
    assert s.ops - {p} == s.ops;
    TotalBound(s.ops);
    assert |s.ops[p := MAXOPBLOCKS]| == |s.ops| + 1;
    hide Total;
  }

  lemma {:induction false} StepEndOp(s: State, p: nat)
    requires Inv(s) && Enabled(s, EndOp(p))
    ensures Inv(Next(s, EndOp(p)))
  {
    var s' := Next(s, EndOp(p));
    TotalSplit(s.ops, p);
    assert |s'.ops| == |s.ops| - 1;
    assert s.phase == Normal && Pending(s') == Pending(s);
    forall b | b in s.mem
      ensures SlotOk(s.start, Pending(s), s'.ops, s.cur, b, s.mem[b])
    {
      assert SlotOk(s.start, Pending(s), s.ops, s.cur, b, s.mem[b]);
    }
  }

  // ---------------------------------------------------------------- commit

  lemma {:induction false} StepCopyBlock(s: State)
    requires Inv(s) && Enabled(s, CopyBlock)
    ensures Inv(Next(s, CopyBlock))
  {
    hide HomesCurrent, LogHolds, Total, GetHead, HeadOk, PendingCached, SlotsOk;
    CommitData(s.start, Pending(s), s.ops, s.cur, s.mem, s.blocks[s.phase.k]);
    var l, data := s.start + 1 + s.phase.k, s.cur[s.blocks[s.phase.k]];
    CopyDisk(s.start, s.disk, s.blocks, s.cur, s.phase.k);
    LogAreaOnly(s.start, s.disk, l, data, Pending(s), s.cur);
    LogAreaOnly(s.start, s.disk, l, data, [], s.committed);
    hide Homes;
  }

  /** During a commit no buffer is under modification, so what is cached is current. */
  lemma {:induction false} CommitData(start: nat, pending: seq<nat>, ops: map<nat, nat>, cur: Disk, mem: map<nat, Slot>, b: nat)
    requires SlotsOk(start, pending, ops, cur, mem) && ops == map[] && b in mem
    ensures b < |cur| && !mem[b].modified && mem[b].data == cur[b]
  {
    assert SlotOk(start, pending, ops, cur, b, mem[b]);
  }

  lemma {:induction false} LogAreaOnly(start: nat, disk: Disk, b: nat, data: Block, pending: seq<nat>, cur: Disk)
    requires |cur| == |disk| && b < |disk| && !IsHome(start, b) && HomesCurrent(start, disk, pending, cur)
    ensures HomesCurrent(start, disk[b := data], pending, cur)
  {
  }

  lemma {:induction false} CopyDisk(start: nat, disk: Disk, blocks: seq<nat>, cur: Disk, k: nat)
    requires |cur| == |disk| && Homes(disk, start, blocks) && k < |blocks| && LogHolds(start, disk, blocks, cur, k)
    ensures
      var disk' := disk[start + 1 + k := cur[blocks[k]]];
      Homes(disk', start, blocks) && LogHolds(start, disk', blocks, cur, k + 1)
  {
  }

  lemma {:induction false} StepWriteHeader(s: State)
    requires Inv(s) && Enabled(s, WriteHeader)
    ensures Inv(Next(s, WriteHeader))
  {
    var s' := Next(s, WriteHeader);
    HeadRoundTrip(s.disk[s.start], s.blocks);
    assert Pending(s') == Pending(s);
  }

  lemma {:induction false} StepInstallBlock(s: State)
    requires Inv(s) && Enabled(s, InstallBlock)
    ensures Inv(Next(s, InstallBlock))
  {
    hide HomesCurrent, Total, GetHead, HeadOk, PendingCached, DropRef;
    var k := s.phase.k;
    var b := s.blocks[k];
    TailOf(s.blocks, k);
    assert s.disk[s.start + 1 + k] == s.cur[b];
    hide SlotsOk, LogHolds;
    CommitData(s.start, Pending(s), s.ops, s.cur, s.mem, b);
    InstallSlots(s.start, Pending(s), s.ops, s.cur, s.mem);
    InstallDisk(s.start, s.disk, s.blocks, s.cur, k);
    hide Homes;
    assert s.mem[b].(data := s.cur[b]) == s.mem[b];
  }

  lemma {:induction false} TailOf(blocks: seq<nat>, k: nat)
    requires k < |blocks| && forall i, j :: 0 <= i < j < |blocks| ==> blocks[i] != blocks[j]
    ensures blocks[k..][0] == blocks[k] && blocks[k..][1..] == blocks[k + 1..] && blocks[k] !in blocks[k + 1..]
  {
  }

  /** Unpinning the first pending block. */
  lemma {:induction false} InstallSlots(start: nat, pending: seq<nat>, ops: map<nat, nat>, cur: Disk, mem: map<nat, Slot>)
    requires pending != [] && pending[0] !in pending[1..]
    requires SlotsOk(start, pending, ops, cur, mem) && PendingCached(pending, mem) && !mem[pending[0]].modified
    ensures
      var mem' := DropRef(mem, pending[0], mem[pending[0]]);
      SlotsOk(start, pending[1..], ops, cur, mem') && PendingCached(pending[1..], mem')
  {
    var b := pending[0];
    var mem' := DropRef(mem, b, mem[b]);
    assert pending == [b] + pending[1..];
    forall c | c in mem'
      ensures SlotOk(start, pending[1..], ops, cur, c, mem'[c])
    {
      assert SlotOk(start, pending, ops, cur, c, mem[c]);
    }
  }

  lemma {:induction false} InstallDisk(start: nat, disk: Disk, blocks: seq<nat>, cur: Disk, k: nat)
    requires |cur| == |disk| && Homes(disk, start, blocks) && k < |blocks|
    requires LogHolds(start, disk, blocks, cur, |blocks|) && HomesCurrent(start, disk, blocks[k..], cur)
    ensures
      var disk' := disk[blocks[k] := cur[blocks[k]]];
      && Homes(disk', start, blocks) && LogHolds(start, disk', blocks, cur, |blocks|)
      && HomesCurrent(start, disk', blocks[k + 1..], cur) && disk'[start] == disk[start]
  {
    assert blocks[k..] == [blocks[k]] + blocks[k + 1..];
  }

  lemma {:induction false} StepClearHeader(s: State)
    requires Inv(s) && Enabled(s, ClearHeader)
    ensures Inv(Next(s, ClearHeader))
  {
    var s' := Next(s, ClearHeader);
    HeadRoundTrip(s.disk[s.start], []);
    assert Pending(s) == Pending(s') == [];
  }

  lemma {:induction false} StepFinishCommit(s: State)
    requires Inv(s) && Enabled(s, FinishCommit)
    ensures Inv(Next(s, FinishCommit))
  {
    assert Pending(Next(s, FinishCommit)) == Pending(s);
  }

  // ---------------------------------------------------------------- crashes and recovery

  lemma {:induction false} LoggedIsCurrent(start: nat, disk: Disk, blocks: seq<nat>, cur: Disk, b: nat)
    requires |cur| == |disk| && Homes(disk, start, blocks)
    requires LogHolds(start, disk, blocks, cur, |blocks|)
    requires b < |disk| && (b !in blocks ==> disk[b] == cur[b])
    ensures Updated(disk, blocks, Logged(disk, start, |blocks|), b) == cur[b]
  {
  }

  /** Whatever the system is doing, its disk means the last committed block map. */
  lemma {:induction false} DiskMeansCommitted(s: State)
    requires Inv(s)
    ensures Recoverable(s.disk, s.start)
    ensures forall b :: 0 <= b < |s.disk| && IsHome(s.start, b) ==> Logical(s.disk, s.start, b) == s.committed[b]
  {
    forall b | 0 <= b < |s.disk| && IsHome(s.start, b)
      ensures Logical(s.disk, s.start, b) == s.committed[b]
    {
      if s.phase.Installing? {
        LoggedIsCurrent(s.start, s.disk, s.blocks, s.cur, b);
      }
    }
  }

  lemma {:induction false} StepCrash(s: State)
    requires Inv(s)
    ensures Inv(Next(s, Crash))
  {
    DiskMeansCommitted(s);
    var s' := Next(s, Crash);
    assert Layout(s') && CacheOk(s') && SpaceOk(s');
    hide DiskOk;
    assert Replayed(s.start, s.disk, s'.blocks, s.committed, 0);
    CrashDiskOk(s');
  }

  lemma {:induction false} CrashDiskOk(s: State)
    requires Layout(s) && s.phase == Replaying(0) && s.committed == s.cur
    requires InHeader(s.start, s.disk, s.blocks) && Replayed(s.start, s.disk, s.blocks, s.committed, 0)
    ensures DiskOk(s)
  {
  }

  lemma {:induction false} ReplayKeeps(start: nat, disk: Disk, blocks: seq<nat>, k: nat, b: nat)
    requires Homes(disk, start, blocks) && k < |blocks| && b < |disk|
    ensures
      var disk' := disk[blocks[k] := disk[start + 1 + k]];
      Updated(disk', blocks, Logged(disk', start, |blocks|), b) == Updated(disk, blocks, Logged(disk, start, |blocks|), b)
  {
    var disk' := disk[blocks[k] := disk[start + 1 + k]];
    assert Logged(disk', start, |blocks|) == Logged(disk, start, |blocks|);
  }

  lemma {:induction false} StepReplayBlock(s: State)
    requires Inv(s) && Enabled(s, ReplayBlock)
    ensures Inv(Next(s, ReplayBlock))
  {
    hide Replayed, GetHead, HeadOk, Total, SlotsOk, Uncommitted, LogHolds, HomesCurrent;
    ReplayDisk(s.start, s.disk, s.blocks, s.committed, s.phase.k);
  }

  lemma {:induction false} ReplayDisk(start: nat, disk: Disk, blocks: seq<nat>, committed: Disk, k: nat)
    requires |committed| == |disk| && Homes(disk, start, blocks) && k < |blocks|
    requires Replayed(start, disk, blocks, committed, k)
    ensures
      var disk' := disk[blocks[k] := disk[start + 1 + k]];
      && Homes(disk', start, blocks) && Replayed(start, disk', blocks, committed, k + 1)
      && disk'[start] == disk[start]
  {
    var disk' := disk[blocks[k] := disk[start + 1 + k]];
    forall b | 0 <= b < |disk| && IsHome(start, b)
      ensures Updated(disk', blocks, Logged(disk', start, |blocks|), b) == committed[b]
    {
      ReplayKeeps(start, disk, blocks, k, b);
    }
    hide Updated, Logged;
  }

  lemma {:induction false} AllReplayed(start: nat, disk: Disk, blocks: seq<nat>, committed: Disk, b: nat)
    requires |committed| == |disk| && Homes(disk, start, blocks) && Replayed(start, disk, blocks, committed, |blocks|)
    requires b < |disk| && IsHome(start, b)
    ensures disk[b] == committed[b]
  {
    if b in blocks {
      var i :| 0 <= i < |blocks| && blocks[i] == b;
      UpdatedAt(disk, start, blocks, Logged(disk, start, |blocks|), i);
    }
  }

  lemma {:induction false} StepReplayClear(s: State)
    requires Inv(s) && Enabled(s, ReplayClear)
    ensures Inv(Next(s, ReplayClear))
  {
    hide Replayed, GetHead, HeadOk, Total, LogHolds, HomesCurrent, Uncommitted, PutHead;
    ReplayedDisk(s.start, s.disk, s.blocks, s.committed);
  }

  lemma {:induction false} ReplayedDisk(start: nat, disk: Disk, blocks: seq<nat>, committed: Disk)
    requires |committed| == |disk| && Homes(disk, start, blocks) && Replayed(start, disk, blocks, committed, |blocks|)
    ensures
      var disk' := disk[start := PutHead(disk[start], [])];
      && Uncommitted(start, disk', committed) && HomesCurrent(start, disk', [], committed)
      && Homes(disk', start, [])
  {
    HeadRoundTrip(disk[start], []);
    forall b | 0 <= b < |disk| && IsHome(start, b)
      ensures disk[b] == committed[b]
    {
      AllReplayed(start, disk, blocks, committed, b);
    }
    hide Replayed, PutHead;
  }

  // ---------------------------------------------------------------- every run

  lemma {:induction false} StepKeepsInv(s: State, e: Event)
    requires Inv(s) && Enabled(s, e)
    ensures Inv(Next(s, e))
  {
    match e
    case Get(b) => StepGet(s, b);
    case Lock(_, _) => StepHolder(s, e);
    case Modify(_, _, _) => StepHolder(s, e);
    case LogWrite(p, b) => if b in s.blocks { StepAbsorb(s, p, b); } else { StepRecord(s, p, b); }
    case Release(p, b) => StepRelease(s, p, b);
    case BeginOp(p) => StepBeginOp(s, p);
    case EndOp(p) => StepEndOp(s, p);
    case CopyBlock => StepCopyBlock(s);
    case WriteHeader => StepWriteHeader(s);
    case InstallBlock => StepInstallBlock(s);
    case ClearHeader => StepClearHeader(s);
    case FinishCommit => StepFinishCommit(s);
    case Crash => StepCrash(s);
    case ReplayBlock => StepReplayBlock(s);
    case ReplayClear => StepReplayClear(s);
  }

  /** The machine as first booted: nothing in memory, and a disk whose header is well formed. */
  ghost predicate Booting(s: State)
  {
    && Recoverable(s.disk, s.start) && s.blocks == GetHead(s.disk[s.start])
    && s.mem == map[] && s.ops == map[] && s.outstanding == 0 && s.phase == Replaying(0)
    && s.cur == s.committed && |s.cur| == |s.disk|
    && forall b :: 0 <= b < |s.disk| && IsHome(s.start, b) ==> Logical(s.disk, s.start, b) == s.committed[b]
  }

  /** A run: a first boot, then enabled events one after the other. */
  ghost predicate Run(run: seq<State>, events: seq<Event>)
  {
    && |run| == |events| + 1
    && Booting(run[0])
    && forall i :: 0 <= i < |events| ==> Layout(run[i]) && Enabled(run[i], events[i]) && run[i + 1] == Next(run[i], events[i])
  }

  lemma {:induction false} BootingInv(s: State)
    requires Booting(s)
    ensures Inv(s)
  {
    assert Replayed(s.start, s.disk, s.blocks, s.committed, 0);
    hide Logical, Updated, Replayed, GetHead, HeadOk, Total, HomesCurrent;
    EmptyTotal();
  }

  lemma {:induction false} EmptyTotal()
    ensures Total(map[]) == 0
  {
  }

  /** The invariant holds in every state of every run. */
  lemma {:induction false} RunInv(run: seq<State>, events: seq<Event>, i: nat)
    requires Run(run, events) && i < |run|
    ensures Inv(run[i])
  {
    if i == 0 {
      BootingInv(run[0]);
    } else {
      RunInv(run, events, i - 1);
      StepKeepsInv(run[i - 1], events[i - 1]);
    }
  }

  /**
    Safety of every run, whatever processes do and wherever it crashes, at each of its states:
    the events' meaning is defined (so no further condition was assumed of a run); a cached
    block not under modification holds the block map's contents, and an uncached one is on disk;
    a recorded block is in use with a reference until it is installed; and if the machine
    crashed here, the recovery that completes, after any number that do not, leaves exactly the
    block map of the last commit point.
   */
  lemma {:induction false} RunSafe(run: seq<State>, events: seq<Event>, i: nat, crashes: seq<nat>)
    requires Run(run, events) && i < |run|
    ensures Layout(run[i])
    ensures forall b :: b in run[i].mem ==> b < |run[i].cur|
    ensures forall b :: b in run[i].mem && !run[i].mem[b].modified ==> run[i].mem[b].data == run[i].cur[b]
    ensures Up(run[i]) ==> forall b :: 0 <= b < |run[i].disk| && IsHome(run[i].start, b) && b !in run[i].mem ==>
      run[i].disk[b] == run[i].cur[b]
    ensures Up(run[i]) ==> forall b :: b in Pending(run[i]) ==> b in run[i].mem && run[i].mem[b].refs > 0
    ensures Recoverable(run[i].disk, run[i].start)
    ensures
      var d := Reboot(run[i].disk, run[i].start, crashes);
      |d| == |run[i].disk| && HomesCurrent(run[i].start, d, [], run[i].committed)
  {
    RunInv(run, events, i);
    InvReads(run[i]);
    InvRecovers(run[i], crashes);
    hide Inv, HomesCurrent, Reboot, Recoverable, Layout, Run;
  }

  lemma {:induction false} InvRecovers(s: State, crashes: seq<nat>)
    requires Inv(s)
    ensures Recoverable(s.disk, s.start)
    ensures
      var d := Reboot(s.disk, s.start, crashes);
      |d| == |s.disk| && HomesCurrent(s.start, d, [], s.committed)
  {
    DiskMeansCommitted(s);
    RebootRestores(s.disk, s.start, crashes);
    hide Reboot, Logical, GetHead, Recoverable;
  }

  lemma {:induction false} InvReads(s: State)
    requires Inv(s)
    ensures forall b :: b in s.mem ==> SlotOk(s.start, Pending(s), s.ops, s.cur, b, s.mem[b])
    ensures Up(s) ==> forall b :: 0 <= b < |s.disk| && IsHome(s.start, b) && b !in s.mem ==> s.disk[b] == s.cur[b]
    ensures Up(s) ==> forall b :: b in Pending(s) ==> b in s.mem && s.mem[b].refs > 0
  {
    hide Total;
    forall b | b in Pending(s) && b in s.mem
      ensures s.mem[b].refs > 0
    {
      assert SlotOk(s.start, Pending(s), s.ops, s.cur, b, s.mem[b]);
    }
  }

  /** The last header write among the first i events. */
  ghost function LastHeader(events: seq<Event>, i: nat): (j: Option<nat>)
    requires i <= |events|
    ensures j.Some? ==> j.value < i && events[j.value].WriteHeader?
  {
    if i == 0 then None else if events[i - 1].WriteHeader? then Some(i - 1) else LastHeader(events, i - 1)
  }

  /** In every run the committed map is the whole current map at the last header write, or still the one first booted with. */
  lemma {:induction false} CommittedAtHeader(run: seq<State>, events: seq<Event>, i: nat)
    requires Run(run, events) && i < |run|
    ensures var j := LastHeader(events, i); run[i].committed == if j.Some? then run[j.value].cur else run[0].committed
  {
    hide Layout, Booting, Enabled, Next;
    if i > 0 {
      CommittedAtHeader(run, events, i - 1);
      assert run[i - 1 + 1] == Next(run[i - 1], events[i - 1]);
      CommittedNext(run[i - 1], events[i - 1]);
    }
  }

  lemma {:induction false} CommittedNext(s: State, e: Event)
    requires Layout(s) && Enabled(s, e)
    ensures Next(s, e).committed == if e.WriteHeader? then s.cur else s.committed
  {
    hide Layout, GetHead, HeadOk, PutHead;
  }

  /**
    What a commit makes permanent: the header is written with no operation in progress and no
    buffer under modification, and no home block on disk changes except by installing or
    replaying what the header names.
   */
  lemma {:induction false} CommitPoint(s: State, e: Event)
    requires Inv(s) && Enabled(s, e)
    ensures e.WriteHeader? ==> s.ops == map[] && forall b :: b in s.mem ==> !s.mem[b].modified
    ensures forall b :: 0 <= b < |s.disk| && IsHome(s.start, b) && Next(s, e).disk[b] != s.disk[b] ==>
      e.InstallBlock? || e.ReplayBlock?
  {
    hide DiskOk, Total, GetHead, HeadOk, PutHead;
    if e.WriteHeader? {
      forall b | b in s.mem
        ensures !s.mem[b].modified
      {
        assert SlotOk(s.start, Pending(s), s.ops, s.cur, b, s.mem[b]);
      }
    }
  }

  /** An operation with a reserved slot left can always record one more block: log_write does not panic. */
  lemma {:induction false} NewSlotFits(s: State, p: nat)
    requires Inv(s) && p in s.ops && s.ops[p] > 0
    ensures |s.blocks| < LOGSIZE
    ensures forall b :: b in s.mem && s.mem[b].owner == Some(p) ==> Enabled(s, LogWrite(p, b))
  {
    forall b | b in s.mem
      ensures IsHomeBlock(s, b)
    {
      assert SlotOk(s.start, Pending(s), s.ops, s.cur, b, s.mem[b]);
    }
    TotalSplit(s.ops, p);
  }

  /**
    log_write panics on a full log even when the block is already recorded. In a reachable state
    that happens exactly when the log is full, and then no operation has a reserved slot left.
   */
  lemma {:induction false} FullLogHasNoReservation(s: State, p: nat, b: nat)
    requires Inv(s) && Up(s) && b in s.mem && s.mem[b].owner == Some(p) && p in s.ops && b in s.blocks
    ensures IsHomeBlock(s, b)
    ensures Enabled(s, LogWrite(p, b)) <==> |s.blocks| != LOGSIZE
    ensures !Enabled(s, LogWrite(p, b)) ==> forall q :: q in s.ops ==> s.ops[q] == 0
  {
    assert SlotOk(s.start, Pending(s), s.ops, s.cur, b, s.mem[b]);
    if |s.blocks| == LOGSIZE {
      forall q | q in s.ops
        ensures s.ops[q] == 0
      {
        TotalSplit(s.ops, q);
      }
    }
  }

  /** bget of a home block panics exactly when it is not cached and all thirty buffers are in use, and one waiter takes a free buffer. */
  lemma {:induction false} Gets(s: State, p: nat, b: nat)
    requires Inv(s) && Up(s) && b < |s.disk| && b < TWO32 && (b < s.start || s.start + 30 < b)
    ensures Enabled(s, Get(b)) <==> b in s.mem || |s.mem| < 30
    ensures Enabled(s, Get(b)) ==>
      var x := Next(s, Get(b)).mem[b];
      x.data == (if b in s.mem then s.mem[b].data else s.cur[b]) && (x.owner == None ==> Enabled(Next(s, Get(b)), Lock(p, b)))
  {
    hide SlotsOk, SlotOk, Total, Homes;
    assert b !in s.mem ==> b !in Pending(s);
  }

  /**
    begin_op waits for a commit, and while the log might not hold what is recorded and ten blocks
    for each operation in progress and the new one; otherwise it goes ahead.
   */
  lemma {:induction false} Admits(s: State, p: nat)
    requires Inv(s) && p !in s.ops
    ensures Enabled(s, BeginOp(p)) <==> s.phase == Normal && |s.blocks| + 10 * |s.ops| + 10 <= 30
  {
  }

  /**
    A commit goes on: while there is a buffer to spare and nobody holds a recorded block, some step
    of it is enabled, and so is some step of recovery.
   */
  lemma {:induction false} CommitGoesOn(s: State)
    requires Inv(s) && s.phase != Normal && |s.mem| < NBUF
    requires forall b :: b in s.blocks && b in s.mem ==> s.mem[b].owner == None
    ensures Enabled(s, CopyBlock) || Enabled(s, WriteHeader) || Enabled(s, InstallBlock) || Enabled(s, ClearHeader)
         || Enabled(s, FinishCommit) || Enabled(s, ReplayBlock) || Enabled(s, ReplayClear)
  {
    hide Total, DiskOk, SlotsOk;
    if (s.phase.Copying? || s.phase.Installing?) && s.phase.k < |s.blocks| {
      assert Pending(s)[s.phase.k - Done(s)] == s.blocks[s.phase.k];
      assert s.blocks[s.phase.k] in Pending(s);
    }
  }

  /** An idle log has room: with no commit under way and no operation in progress, begin_op goes ahead. */
  lemma {:induction false} IdleLogAdmits(s: State, p: nat)
    requires Inv(s) && s.phase == Normal && s.outstanding == 0
    ensures s.blocks == [] && Enabled(s, BeginOp(p))
  {
  }
}
